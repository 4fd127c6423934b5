/**
 Redaction of audit payloads, against the release gate's scan of the stored payloads for secrets.
 The two have their own lists of secret-like words, and the gate its own list of safe values.
 */
module Redaction {
  import opened Common
  import opened Json

  const REDACTED_VALUE := "[REDACTED]"

  // The alternatives of the two patterns, with `[_-]?` written out.
  const GATE_WORDS: set<string> :=
    {"secret", "token", "password", "passwd", "apikey", "api_key", "api-key", "credential"}
  const AUDIT_WORDS: set<string> :=
    GATE_WORDS + {"accesskey", "access_key", "access-key", "authtoken", "auth_token", "auth-token"}

  const SAFE_SECRET_VALUES: set<string> := {"", "<redacted>", "[redacted]", "***", "secret_values_removed"}
  const SAFE_SECRET_REF_KEYS: set<string> := {"token_ref", "secret_ref", "source_ref", "credential_ref"}

  /** How a case-insensitive pattern sees a character: ASCII letters, and the four other
      characters that fold to a letter of the patterns. */
  function Fold(c: char): char {
    if 'A' <= c <= 'Z' then (c as int + 32) as char
    else if c == '\U{0130}' || c == '\U{0131}' then 'i'
    else if c == '\U{017F}' then 's'
    else if c == '\U{212A}' then 'k'
    else c
  }

  predicate MentionsAt(key: string, word: string, i: nat) {
    i + |word| <= |key| && forall j :: i <= j < i + |word| ==> Fold(key[j]) == word[j - i]
  }

  predicate Mentions(key: string, word: string) {
    exists i: nat :: i <= |key| && MentionsAt(key, word, i)
  }

  predicate AuditSecretKey(key: string) {
    exists word :: word in AUDIT_WORDS && Mentions(key, word)
  }

  predicate GateSecretKey(key: string) {
    exists word :: word in GATE_WORDS && Mentions(key, word)
  }

  /** What the gate calls secret the audit log redacts. */
  lemma GateKeysAreRedacted(key: string)
    ensures GateSecretKey(key) ==> AuditSecretKey(key)
  {
    if word :| word in GATE_WORDS && Mentions(key, word) {
      assert word in AUDIT_WORDS;
    }
  }

  function RedactSecrets(value: Value): Value {
    match value
    case Object(fields) =>
      Object(map key | key in fields ::
        if AuditSecretKey(key) then String(REDACTED_VALUE) else RedactSecrets(fields[key]))
    case Array(items) =>
      Array(seq(|items|, i requires 0 <= i < |items| => RedactSecrets(items[i])))
    case _ => value
  }

  // ----- Which keys are secret -----

  /** The same letters, but for their case. */
  predicate SameButForCase(a: string, b: string) {
    |a| == |b| && forall i :: 0 <= i < |a| ==> a[i] == b[i] || SameLetter(a[i], b[i]) || SameLetter(b[i], a[i])
  }

  predicate SameLetter(upper: char, lower: char) {
    'A' <= upper <= 'Z' && 'a' <= lower <= 'z' && upper - 'A' == lower - 'a'
  }

  lemma FoldIgnoresCase(a: char, b: char)
    requires a == b || SameLetter(a, b) || SameLetter(b, a)
    ensures Fold(a) == Fold(b)
  {
  }

  lemma MentionIgnoresCase(a: string, b: string, word: string)
    requires SameButForCase(a, b) && Mentions(a, word)
    ensures Mentions(b, word)
  {
    var i: nat :| i <= |a| && MentionsAt(a, word, i);
    forall j | i <= j < i + |word|
      ensures Fold(b[j]) == word[j - i]
    {
      FoldIgnoresCase(a[j], b[j]);
    }
    assert MentionsAt(b, word, i);
  }

  lemma CaseIsSymmetric(a: string, b: string)
    requires SameButForCase(a, b)
    ensures SameButForCase(b, a)
  {
  }

  /** Neither the log nor the gate cares about the case of a key. */
  lemma KeysIgnoreCase(a: string, b: string)
    requires SameButForCase(a, b)
    ensures AuditSecretKey(a) == AuditSecretKey(b) && GateSecretKey(a) == GateSecretKey(b)
  {
    CaseIsSymmetric(a, b);
    forall word | word in AUDIT_WORDS
      ensures Mentions(a, word) == Mentions(b, word)
    {
      if Mentions(a, word) {
        MentionIgnoresCase(a, b, word);
      }
      if Mentions(b, word) {
        MentionIgnoresCase(b, a, word);
      }
    }
  }

  predicate Lowercase(word: string) {
    forall i :: 0 <= i < |word| ==> ('a' <= word[i] <= 'z') || word[i] == '_' || word[i] == '-'
  }

  lemma WordIsMentioned(before: string, word: string, after: string)
    requires Lowercase(word)
    ensures Mentions(before + word + after, word)
  {
    var key := before + word + after;
    forall j | |before| <= j < |before| + |word|
      ensures Fold(key[j]) == word[j - |before|]
    {
      assert key[j] == word[j - |before|];
    }
    assert MentionsAt(key, word, |before|);
  }

  /** A key that holds one of these words anywhere is secret for both; access keys and authorization
      tokens are so for the log. */
  lemma SecretWords(before: string, word: string, after: string)
    ensures word in {"secret", "token", "password", "passwd", "apikey", "api_key", "api-key", "credential"} ==>
              AuditSecretKey(before + word + after) && GateSecretKey(before + word + after)
    ensures word in {"accesskey", "access_key", "access-key", "authtoken", "auth_token", "auth-token"} ==>
              AuditSecretKey(before + word + after)
  {
    if word in AUDIT_WORDS {
      WordsAreLowercase();
      WordIsMentioned(before, word, after);
    }
  }

  lemma WordsAreLowercase()
    ensures forall word :: word in AUDIT_WORDS ==> Lowercase(word)
  {
  }

  // ----- What redaction keeps -----

  /** The value at a path, if the path leads somewhere. */
  function ValueAt(value: Value, path: Path): Option<Value> {
    if path == [] then Some(value)
    else
      match (value, path[0])
      case (Object(fields), Key(key)) => if key in fields then ValueAt(fields[key], path[1..]) else None
      case (Array(items), Index(i)) => if i < |items| then ValueAt(items[i], path[1..]) else None
      case _ => None
  }

  predicate ThroughSecret(path: Path) {
    exists i :: 0 <= i < |path| && path[i].Key? && AuditSecretKey(path[i].name)
  }

  /** Along a path without secret keys redaction keeps the shape, and every scalar at its end. */
  lemma {:induction false} OpenPathsAreKept(value: Value, path: Path)
    requires !ThroughSecret(path)
    ensures ValueAt(RedactSecrets(value), path).Some? == ValueAt(value, path).Some?
    ensures var v := ValueAt(value, path); v.Some? ==> ValueAt(RedactSecrets(value), path) == Some(RedactSecrets(v.value))
    ensures var v := ValueAt(value, path);
      v.Some? && !v.value.Object? && !v.value.Array? ==> ValueAt(RedactSecrets(value), path) == v
  {
    if path != [] {
      assert forall i :: 0 <= i < |path[1..]| ==> path[1..][i] == path[i + 1];
      match (value, path[0]) {
        case (Object(fields), Key(key)) =>
          assert !AuditSecretKey(path[0].name);
          if key in fields {
            OpenPathsAreKept(fields[key], path[1..]);
          }
        case (Array(items), Index(i)) =>
          if i < |items| {
            OpenPathsAreKept(items[i], path[1..]);
          }
        case _ =>
      }
    }
  }

  /** At the first secret key of a path stands the marker, and nothing is below it. */
  lemma SecretIsMarked(value: Value, path: Path, key: string, below: Path)
    requires !ThroughSecret(path) && AuditSecretKey(key) && ValueAt(value, path + [Key(key)]).Some?
    ensures ValueAt(RedactSecrets(value), path + [Key(key)]) == Some(String("[REDACTED]"))
    ensures below != [] ==> ValueAt(RedactSecrets(value), path + [Key(key)] + below) == None
  {
    PathsCompose(value, path, [Key(key)]);
    OpenPathsAreKept(value, path);
    PathsCompose(RedactSecrets(value), path, [Key(key)]);
    PathsCompose(RedactSecrets(value), path + [Key(key)], below);
  }

  lemma {:induction false} PathsCompose(value: Value, p: Path, q: Path)
    ensures ValueAt(value, p + q) == if ValueAt(value, p).Some? then ValueAt(ValueAt(value, p).value, q) else None
  {
    if p == [] {
      assert p + q == q;
    } else {
      assert (p + q)[0] == p[0] && (p + q)[1..] == p[1..] + q;
      match (value, p[0]) {
        case (Object(fields), Key(key)) =>
          if key in fields {
            PathsCompose(fields[key], p[1..], q);
          }
        case (Array(items), Index(i)) =>
          if i < |items| {
            PathsCompose(items[i], p[1..], q);
          }
        case _ =>
      }
    }
  }

  // ----- What redaction forgets -----

  /** Equal but for the values under secret-like keys. */
  predicate SameButForSecrets(v: Value, w: Value) {
    match (v, w)
    case (Object(m), Object(n)) =>
      m.Keys == n.Keys && forall key :: key in m && !AuditSecretKey(key) ==> SameButForSecrets(m[key], n[key])
    case (Array(xs), Array(ys)) =>
      |xs| == |ys| && forall i :: 0 <= i < |xs| ==> SameButForSecrets(xs[i], ys[i])
    case _ => v == w
  }

  /** Redaction forgets exactly the values under secret-like keys: two payloads are stored alike if
      and only if they differ nowhere else, so nothing of such a value can be read back. */
  lemma {:induction false} RedactionForgetsSecretsOnly(v: Value, w: Value)
    ensures RedactSecrets(v) == RedactSecrets(w) <==> SameButForSecrets(v, w)
  {
    match (v, w) {
      case (Object(m), Object(n)) =>
        var rm, rn := RedactSecrets(v).fields, RedactSecrets(w).fields;
        assert rm.Keys == m.Keys && rn.Keys == n.Keys;
        forall key | key in m && key in n && !AuditSecretKey(key)
          ensures rm[key] == rn[key] <==> SameButForSecrets(m[key], n[key])
        {
          RedactionForgetsSecretsOnly(m[key], n[key]);
        }
      case (Array(xs), Array(ys)) =>
        var rx, ry := RedactSecrets(v).items, RedactSecrets(w).items;
        forall i | 0 <= i < |xs| && i < |ys|
          ensures rx[i] == ry[i] <==> SameButForSecrets(xs[i], ys[i])
        {
          RedactionForgetsSecretsOnly(xs[i], ys[i]);
        }
        if |xs| == |ys| && SameButForSecrets(v, w) {
          assert rx == ry;
        }
      case _ =>
    }
  }

  lemma {:induction false} RedactionIsIdempotent(v: Value)
    ensures RedactSecrets(RedactSecrets(v)) == RedactSecrets(v)
  {
    match v {
      case Object(m) =>
        forall key | key in m && !AuditSecretKey(key)
          ensures RedactSecrets(RedactSecrets(m[key])) == RedactSecrets(m[key])
        {
          RedactionIsIdempotent(m[key]);
        }
      case Array(xs) =>
        forall i | 0 <= i < |xs|
          ensures RedactSecrets(RedactSecrets(xs[i])) == RedactSecrets(xs[i])
        {
          RedactionIsIdempotent(xs[i]);
        }
        assert RedactSecrets(RedactSecrets(v)).items == RedactSecrets(v).items;
      case _ =>
    }
  }

  // ----- The release gate -----

  datatype Step = Key(name: string) | Index(position: nat)

  type Path = seq<Step>

  predicate SafeSecretReferenceValue(key: string, value: string) {
    key in SAFE_SECRET_REF_KEYS || StartsWith(value, "secretref:") || value in SAFE_SECRET_VALUES || StartsWith(value, "sha256:")
  }

  predicate Flagged(key: string, item: Value) {
    GateSecretKey(key) && item.String? && !SafeSecretReferenceValue(key, item.text)
  }

  /** Whether the gate's scan of a tree reports the key a path leads to. */
  predicate Reports(value: Value, path: Path) {
    path != [] &&
    match (value, path[0])
    case (Object(fields), Key(key)) =>
      key in fields && ((|path| == 1 && Flagged(key, fields[key])) || Reports(fields[key], path[1..]))
    case (Array(items), Index(i)) =>
      i < |items| && Reports(items[i], path[1..])
    case _ => false
  }

  /** `p` leads to a reported key of `value`, which itself is at `path`. */
  ghost predicate ReportedBelow(value: Value, path: Path, p: Path) {
    path <= p && Reports(value, p[|path|..])
  }

  /** The gate's scan, object by object and list by list. */
  method SecretKeyFindings(value: Value, path: Path) returns (findings: set<Path>)
    ensures forall p: Path :: p in findings <==> ReportedBelow(value, path, p)
    decreases value
  {
    findings := {};
    match value {
      case Object(fields) =>
        var left := fields.Keys;
        while left != {}
          invariant left <= fields.Keys
          invariant forall p: Path :: p in findings <==> ReportedBelow(value, path, p) && p[|path|].name !in left
          decreases |left|
        {
          var key :| key in left;
          if Flagged(key, fields[key]) {
            findings := findings + {path + [Key(key)]};
          }
          var below := SecretKeyFindings(fields[key], path + [Key(key)]);
          forall p: Path
            ensures p in below || (Flagged(key, fields[key]) && p == path + [Key(key)])
               <==> ReportedBelow(value, path, p) && p[|path|].name == key
          {
            BelowKey(fields, path, key, p);
          }
          findings := findings + below;
          left := left - {key};
        }
      case Array(items) =>
        var index := 0;
        while index < |items|
          invariant 0 <= index <= |items|
          invariant forall p: Path :: p in findings <==> ReportedBelow(value, path, p) && p[|path|].position < index
        {
          var below := SecretKeyFindings(items[index], path + [Index(index)]);
          forall p: Path
            ensures p in below <==> ReportedBelow(value, path, p) && p[|path|].position == index
          {
            BelowIndex(items, path, index, p);
          }
          findings := findings + below;
          index := index + 1;
        }
      case _ =>
    }
  }

  lemma BelowKey(fields: map<string, Value>, path: Path, key: string, p: Path)
    requires key in fields
    ensures ReportedBelow(fields[key], path + [Key(key)], p) || (Flagged(key, fields[key]) && p == path + [Key(key)])
       <==> ReportedBelow(Object(fields), path, p) && p[|path|] == Key(key)
  {
    var deeper := path + [Key(key)];
    if deeper <= p {
      assert p[|path|] == deeper[|path|] && p[..|path|] == deeper[..|path|] == path;
    }
    if path <= p && |p| > |path| && p[|path|] == Key(key) {
      assert p[..|path|] == path && p[..|path| + 1] == deeper;
      assert p[|path|..][1..] == p[|deeper|..];
      assert |p| == |deeper| ==> p == deeper;
    }
  }

  lemma BelowIndex(items: seq<Value>, path: Path, index: nat, p: Path)
    requires index < |items|
    ensures ReportedBelow(items[index], path + [Index(index)], p)
       <==> ReportedBelow(Array(items), path, p) && p[|path|] == Index(index)
  {
    var deeper := path + [Index(index)];
    if deeper <= p {
      assert p[|path|] == deeper[|path|] && p[..|path|] == deeper[..|path|] == path;
    }
    if path <= p && |p| > |path| && p[|path|] == Index(index) {
      assert p[..|path|] == path && p[..|path| + 1] == deeper;
      assert p[|path|..][1..] == p[|deeper|..];
    }
  }

  /** The path leads to a key that is secret-like for the gate, outside its list of reference keys,
      and not itself under a redacted key. */
  predicate UnlistedSecretKey(value: Value, path: Path) {
    path != [] &&
    match (value, path[0])
    case (Object(fields), Key(key)) =>
      key in fields &&
      if |path| == 1 then GateSecretKey(key) && key !in SAFE_SECRET_REF_KEYS
      else !AuditSecretKey(key) && UnlistedSecretKey(fields[key], path[1..])
    case (Array(items), Index(i)) =>
      i < |items| && UnlistedSecretKey(items[i], path[1..])
    case _ => false
  }

  lemma MarkerIsNotSafe(key: string)
    ensures SafeSecretReferenceValue(key, REDACTED_VALUE) <==> key in SAFE_SECRET_REF_KEYS
  {
    assert REDACTED_VALUE[0] == '[' && "secretref:"[0] == 's' && "sha256:"[0] == 's';
    assert REDACTED_VALUE[1] == 'R' && "[redacted]"[1] == 'r';
  }

  /** A secret-like key passes the gate exactly with a reference or a mark that nothing is there. */
  lemma FlaggedIff(key: string, text: string)
    ensures Flagged(key, String(text)) <==>
      && GateSecretKey(key) && key !in {"token_ref", "secret_ref", "source_ref", "credential_ref"}
      && !("secretref:" <= text) && !("sha256:" <= text)
      && text !in {"", "<redacted>", "[redacted]", "***", "secret_values_removed"}
  {
    assert StartsWith(text, "secretref:") <==> "secretref:" <= text;
    assert StartsWith(text, "sha256:") <==> "sha256:" <= text;
  }

  /** On a redacted payload the gate reports exactly the secret-like keys that it does not list as
      references, whatever their values were: the marker `[REDACTED]` is not one of its safe values.
      It passes the payload if and only if there is no such key. */
  lemma {:induction false} GateOnRedactedPayload(value: Value, path: Path)
    ensures Reports(RedactSecrets(value), path) <==> UnlistedSecretKey(value, path)
  {
    if path != [] {
      match (value, path[0]) {
        case (Object(fields), Key(key)) =>
          GateKeysAreRedacted(key);
          MarkerIsNotSafe(key);
          if key in fields && !AuditSecretKey(key) {
            GateOnRedactedPayload(fields[key], path[1..]);
          }
        case (Array(items), Index(i)) =>
          if i < |items| {
            GateOnRedactedPayload(items[i], path[1..]);
          }
        case _ =>
      }
    }
  }

  /** The gate is therefore not satisfied by redaction alone. */
  lemma GateFlagsARedactedKey(secret: string)
    ensures Reports(RedactSecrets(Object(map["token" := String(secret)])), [Key("token")])
  {
    assert MentionsAt("token", "token", 0);
    GateOnRedactedPayload(Object(map["token" := String(secret)]), [Key("token")]);
  }
}
