/**
 The JSONC comment stripper of the OpenCode adapter (the control-plane installer carries the
 same loop).  `StripJsoncComments` is the one-pass loop over an index and two mode flags; `Code`,
 `InString` and `InBlock` are a recursive lexer over the rest of the text.
 */
module JsoncComments {

  // ----- The recursive lexer -----

  predicate IsLineBreak(c: char) {
    c == '\r' || c == '\n'
  }

  predicate OpensLineComment(s: string) {
    |s| >= 2 && s[0] == '/' && s[1] == '/'
  }

  predicate OpensBlockComment(s: string) {
    |s| >= 2 && s[0] == '/' && s[1] == '*'
  }

  predicate ClosesBlockComment(s: string) {
    |s| >= 2 && s[0] == '*' && s[1] == '/'
  }

  function Blank(c: char): char {
    if IsLineBreak(c) then '\n' else ' '
  }

  /** What is left once a line comment has been skipped: the text from its line break on. */
  function AfterLine(s: string): (r: string)
    ensures |r| <= |s|
  {
    if s == [] || IsLineBreak(s[0]) then s else AfterLine(s[1..])
  }

  /** The stripped form of a text met outside strings and comments. */
  function Code(s: string): string
    decreases |s|, 0
  {
    if s == [] then []
    else if s[0] == '"' then [s[0]] + InString(s[1..], false)
    else if OpensLineComment(s) then Code(AfterLine(s[2..]))
    else if OpensBlockComment(s) then InBlock(s[2..])
    else [s[0]] + Code(s[1..])
  }

  /** The stripped form of a text met inside a string literal (RFC 8259, section 7). */
  function InString(s: string, escape: bool): string
    decreases |s|, 0
  {
    if s == [] then []
    else if escape then [s[0]] + InString(s[1..], false)
    else if s[0] == '\\' then [s[0]] + InString(s[1..], true)
    else if s[0] == '"' then [s[0]] + Code(s[1..])
    else [s[0]] + InString(s[1..], false)
  }

  /** The stripped form of a text met inside a block comment.  A last character that is not part
      of a closing mark goes back to being code, as it does in the loop. */
  function InBlock(s: string): string
    decreases |s|, 1
  {
    if |s| < 2 then Code(s)
    else if ClosesBlockComment(s) then Code(s[2..])
    else [Blank(s[0])] + InBlock(s[1..])
  }

  /** The lexer mode after the string flags of the loop. */
  function Rest(s: string, inString: bool, escape: bool): string {
    if inString then InString(s, escape) else Code(s)
  }

  // ----- The loop -----

  /** The inner loop over a line comment: `index` stops on the line break that ends it. */
  method SkipLineComment(text: string, start: nat) returns (index: nat)
    requires start <= |text|
    ensures start <= index <= |text|
    ensures text[index..] == AfterLine(text[start..])
  {
    index := start;
    while index < |text| && !IsLineBreak(text[index])
      invariant start <= index <= |text|
      invariant AfterLine(text[index..]) == AfterLine(text[start..])
    {
      assert text[index..][1..] == text[index + 1..];
      index := index + 1;
    }
  }

  /** The inner loop over a block comment, which writes a blank or a line feed for each character. */
  method BlankBlockComment(text: string, written: string, start: nat) returns (result: string, index: nat)
    requires start <= |text|
    requires Emits(text, written, InBlock(text[start..]))
    ensures start <= index <= |text|
    ensures Emits(text, result, Code(text[index..]))
  {
    result, index := written, start;
    while index + 1 < |text| && !(text[index] == '*' && text[index + 1] == '/')
      invariant start <= index <= |text|
      invariant Emits(text, result, InBlock(text[index..]))
    {
      assert text[index..][1..] == text[index + 1..];
      Emit(text, result, Blank(text[index]), InBlock(text[index + 1..]));
      result := result + [if IsLineBreak(text[index]) then '\n' else ' '];
      index := index + 1;
    }
    if index + 1 < |text| {
      assert text[index..][2..] == text[index + 2..];
      index := index + 2;
    }
  }

  method StripJsoncComments(text: string) returns (result: string)
    ensures result == Code(text)
  {
    result := [];
    var index := 0;
    var inString, escape := false, false;
    while index < |text|
      invariant 0 <= index <= |text|
      invariant Emits(text, result, Rest(text[index..], inString, escape))
    {
      var c := text[index];
      ghost var rest := text[index..];
      assert rest[1..] == text[index + 1..];
      if inString {
        Emit(text, result, c, Rest(rest[1..], escape || c != '"', !escape && c == '\\'));
        result := result + [c];
        if escape {
          escape := false;
        } else if c == '\\' {
          escape := true;
        } else if c == '"' {
          inString := false;
        }
        index := index + 1;
      } else if c == '"' {
        inString, escape := true, false;
        Emit(text, result, c, InString(rest[1..], false));
        result := result + [c];
        index := index + 1;
      } else if c == '/' && index + 1 < |text| && text[index + 1] == '/' {
        assert rest[2..] == text[index + 2..];
        index := SkipLineComment(text, index + 2);
      } else if c == '/' && index + 1 < |text| && text[index + 1] == '*' {
        assert rest[2..] == text[index + 2..];
        result, index := BlankBlockComment(text, result, index + 2);
      } else {
        Emit(text, result, c, Code(rest[1..]));
        result := result + [c];
        index := index + 1;
      }
    }
  }

  /** What the loop has written, followed by what is still to come, is the stripped text. */
  ghost predicate Emits(text: string, result: string, rest: string) {
    result + rest == Code(text)
  }

  lemma Emit(text: string, result: string, c: char, rest: string)
    requires Emits(text, result, [c] + rest)
    ensures Emits(text, result + [c], rest)
  {
    assert result + ([c] + rest) == (result + [c]) + rest;
  }

  // ----- Line breaks and length -----

  function LineBreaks(s: string): nat {
    if s == [] then 0 else (if IsLineBreak(s[0]) then 1 else 0) + LineBreaks(s[1..])
  }

  lemma {:induction false} AfterLineKeepsLineBreaks(s: string)
    ensures LineBreaks(AfterLine(s)) == LineBreaks(s)
  {
    if s != [] && !IsLineBreak(s[0]) {
      AfterLineKeepsLineBreaks(s[1..]);
    }
  }

  /** Every line of the output is a line of the input, so a JSON error keeps its line number, and
      the output is never longer than the input: for all texts, closed comments or not. */
  lemma {:induction false} StrippingKeepsLines(s: string)
    ensures LineBreaks(Code(s)) == LineBreaks(s) && |Code(s)| <= |s|
    decreases |s|, 0
  {
    if s == [] {
    } else if s[0] == '"' {
      StringKeepsLines(s[1..], false);
    } else if OpensLineComment(s) {
      var rest := s[2..];
      assert s[1..][1..] == rest;
      AfterLineKeepsLineBreaks(rest);
      StrippingKeepsLines(AfterLine(rest));
    } else if OpensBlockComment(s) {
      assert s[1..][1..] == s[2..];
      BlockKeepsLines(s[2..]);
    } else {
      StrippingKeepsLines(s[1..]);
    }
  }

  lemma {:induction false} StringKeepsLines(s: string, escape: bool)
    ensures LineBreaks(InString(s, escape)) == LineBreaks(s) && |InString(s, escape)| <= |s|
    decreases |s|, 0
  {
    if s != [] {
      if !escape && s[0] == '"' {
        StrippingKeepsLines(s[1..]);
      } else {
        StringKeepsLines(s[1..], !escape && s[0] == '\\');
      }
    }
  }

  lemma {:induction false} BlockKeepsLines(s: string)
    ensures LineBreaks(InBlock(s)) == LineBreaks(s) && |InBlock(s)| <= |s|
    decreases |s|, 1
  {
    if |s| < 2 {
      StrippingKeepsLines(s);
    } else if ClosesBlockComment(s) {
      assert s[1..][1..] == s[2..];
      StrippingKeepsLines(s[2..]);
    } else {
      BlockKeepsLines(s[1..]);
    }
  }

  // ----- Idempotence -----

  /** The output holds no comment any more: stripping it again changes nothing. */
  lemma {:induction false} StrippingIsIdempotent(s: string)
    ensures Code(Code(s)) == Code(s)
    decreases |s|, 0
  {
    if s == [] {
    } else if s[0] == '"' {
      StringIsIdempotent(s[1..], false);
      assert Code(s)[1..] == InString(s[1..], false);
    } else if OpensLineComment(s) {
      StrippingIsIdempotent(AfterLine(s[2..]));
    } else if OpensBlockComment(s) {
      BlockIsIdempotent(s[2..]);
    } else {
      StrippingIsIdempotent(s[1..]);
      assert Code(s)[1..] == Code(s[1..]);
    }
  }

  lemma {:induction false} StringIsIdempotent(s: string, escape: bool)
    ensures InString(InString(s, escape), escape) == InString(s, escape)
    decreases |s|, 0
  {
    if s != [] {
      if !escape && s[0] == '"' {
        StrippingIsIdempotent(s[1..]);
        assert InString(s, escape)[1..] == Code(s[1..]);
      } else {
        var next := !escape && s[0] == '\\';
        StringIsIdempotent(s[1..], next);
        assert InString(s, escape)[1..] == InString(s[1..], next);
      }
    }
  }

  lemma {:induction false} BlockIsIdempotent(s: string)
    ensures Code(InBlock(s)) == InBlock(s)
    decreases |s|, 1
  {
    if |s| < 2 {
      StrippingIsIdempotent(s);
    } else if ClosesBlockComment(s) {
      StrippingIsIdempotent(s[2..]);
    } else {
      BlockIsIdempotent(s[1..]);
      assert InBlock(s)[1..] == InBlock(s[1..]);
    }
  }

  // ----- String literals -----

  /** The string literals of a text, quotes and escapes included, in order.  Quotes inside
      comments open nothing. */
  function Literals(s: string): seq<string>
    decreases |s|, 0
  {
    if s == [] then []
    else if s[0] == '"' then StringLiterals(s[1..], false, [s[0]])
    else if OpensLineComment(s) then Literals(AfterLine(s[2..]))
    else if OpensBlockComment(s) then BlockLiterals(s[2..])
    else Literals(s[1..])
  }

  function StringLiterals(s: string, escape: bool, begun: string): seq<string>
    decreases |s|, 0
  {
    if s == [] then [begun]
    else if !escape && s[0] == '"' then [begun + [s[0]]] + Literals(s[1..])
    else StringLiterals(s[1..], !escape && s[0] == '\\', begun + [s[0]])
  }

  function BlockLiterals(s: string): seq<string>
    decreases |s|, 1
  {
    if |s| < 2 then Literals(s)
    else if ClosesBlockComment(s) then Literals(s[2..])
    else BlockLiterals(s[1..])
  }

  /** String literals come through verbatim, all of them, in order, and no comment adds one. */
  lemma {:induction false} StrippingKeepsLiterals(s: string)
    ensures Literals(Code(s)) == Literals(s)
    decreases |s|, 0
  {
    if s == [] {
    } else if s[0] == '"' {
      StringKeepsLiterals(s[1..], false, [s[0]]);
      assert Code(s)[1..] == InString(s[1..], false);
    } else if OpensLineComment(s) {
      StrippingKeepsLiterals(AfterLine(s[2..]));
    } else if OpensBlockComment(s) {
      BlockKeepsLiterals(s[2..]);
    } else {
      StrippingKeepsLiterals(s[1..]);
      assert Code(s)[1..] == Code(s[1..]);
    }
  }

  lemma {:induction false} StringKeepsLiterals(s: string, escape: bool, begun: string)
    ensures StringLiterals(InString(s, escape), escape, begun) == StringLiterals(s, escape, begun)
    decreases |s|, 0
  {
    if s != [] {
      if !escape && s[0] == '"' {
        StrippingKeepsLiterals(s[1..]);
        assert InString(s, escape)[1..] == Code(s[1..]);
      } else {
        var next := !escape && s[0] == '\\';
        StringKeepsLiterals(s[1..], next, begun + [s[0]]);
        assert InString(s, escape)[1..] == InString(s[1..], next);
      }
    }
  }

  lemma {:induction false} BlockKeepsLiterals(s: string)
    ensures Literals(InBlock(s)) == BlockLiterals(s)
    decreases |s|, 1
  {
    if |s| < 2 {
      StrippingKeepsLiterals(s);
    } else if ClosesBlockComment(s) {
      StrippingKeepsLiterals(s[2..]);
    } else {
      BlockKeepsLiterals(s[1..]);
      assert InBlock(s)[1..] == InBlock(s[1..]);
    }
  }

  // ----- Composition -----

  /** At the end of `s` the lexer is outside every string and comment, and no `/` is waiting for
      a partner. */
  predicate Settled(s: string)
    decreases |s|, 0
  {
    if s == [] then true
    else if s[0] == '"' then StringSettled(s[1..], false)
    else if OpensLineComment(s) then AfterLine(s[2..]) != [] && Settled(AfterLine(s[2..]))
    else if OpensBlockComment(s) then BlockSettled(s[2..])
    else s != "/" && Settled(s[1..])
  }

  predicate StringSettled(s: string, escape: bool)
    decreases |s|, 0
  {
    s != [] &&
    if !escape && s[0] == '"' then Settled(s[1..])
    else StringSettled(s[1..], !escape && s[0] == '\\')
  }

  predicate BlockSettled(s: string)
    decreases |s|, 1
  {
    |s| >= 2 && if ClosesBlockComment(s) then Settled(s[2..]) else BlockSettled(s[1..])
  }

  lemma {:induction false} AfterLineConcat(s: string, q: string)
    requires AfterLine(s) != []
    ensures AfterLine(s + q) == AfterLine(s) + q
  {
    if !IsLineBreak(s[0]) {
      assert (s + q)[1..] == s[1..] + q;
      AfterLineConcat(s[1..], q);
    }
  }

  /** A settled prefix is stripped independently of what follows it. */
  lemma {:induction false} SettledComposes(p: string, q: string)
    requires Settled(p)
    ensures Code(p + q) == Code(p) + Code(q)
    decreases |p|, 0
  {
    if p == [] {
      assert p + q == q;
    } else {
      Tails(p, q);
      if p[0] == '"' {
        StringComposes(p[1..], false, q);
        assert [p[0]] + (InString(p[1..], false) + Code(q)) == ([p[0]] + InString(p[1..], false)) + Code(q);
      } else if OpensLineComment(p) {
        AfterLineConcat(p[2..], q);
        SettledComposes(AfterLine(p[2..]), q);
      } else if OpensBlockComment(p) {
        BlockComposes(p[2..], q);
      } else {
        SettledComposes(p[1..], q);
        assert [p[0]] + (Code(p[1..]) + Code(q)) == ([p[0]] + Code(p[1..])) + Code(q);
      }
    }
  }

  lemma Tails(p: string, q: string)
    requires p != []
    ensures (p + q)[0] == p[0] && (p + q)[1..] == p[1..] + q
    ensures |p| >= 2 ==> (p + q)[1] == p[1] && (p + q)[2..] == p[2..] + q
  {
  }

  lemma {:induction false} StringComposes(p: string, escape: bool, q: string)
    requires StringSettled(p, escape)
    ensures InString(p + q, escape) == InString(p, escape) + Code(q)
    decreases |p|, 0
  {
    Tails(p, q);
    if !escape && p[0] == '"' {
      SettledComposes(p[1..], q);
      assert [p[0]] + (Code(p[1..]) + Code(q)) == ([p[0]] + Code(p[1..])) + Code(q);
    } else {
      var next := !escape && p[0] == '\\';
      StringComposes(p[1..], next, q);
      assert [p[0]] + (InString(p[1..], next) + Code(q)) == ([p[0]] + InString(p[1..], next)) + Code(q);
    }
  }

  lemma {:induction false} BlockComposes(p: string, q: string)
    requires BlockSettled(p)
    ensures InBlock(p + q) == InBlock(p) + Code(q)
    decreases |p|, 1
  {
    Tails(p, q);
    if ClosesBlockComment(p) {
      SettledComposes(p[2..], q);
    } else {
      BlockComposes(p[1..], q);
      assert [Blank(p[0])] + (InBlock(p[1..]) + Code(q)) == ([Blank(p[0])] + InBlock(p[1..])) + Code(q);
    }
  }

  /** Settling is also necessary: after any other prefix, one of two short continuations is
      stripped differently than it would be on its own. */
  lemma {:induction false} UnsettledInterferes(p: string)
    requires !Settled(p)
    ensures Code(p + "//") != Code(p) + Code("//") || Code(p + "x") != Code(p) + Code("x")
    decreases |p|, 0
  {
    assert Code("//") == [] && Code("x") == "x";
    Tails(p, "//");
    Tails(p, "x");
    if p[0] == '"' {
      OpenStringGrows(p[1..], false);
      ConsKeepsDifference(p[0], InString(p[1..] + "//", false), InString(p[1..], false));
      ConsKeepsDifference(p[0], InString(p[1..] + "x", false), InString(p[1..], false) + "x");
      assert [p[0]] + (InString(p[1..], false) + "x") == Code(p) + "x";
    } else if OpensLineComment(p) {
      var rest := p[2..];
      if AfterLine(rest) == [] {
        OpenLineSwallows(rest);
      } else {
        AfterLineConcat(rest, "//");
        AfterLineConcat(rest, "x");
        UnsettledInterferes(AfterLine(rest));
      }
    } else if OpensBlockComment(p) {
      OpenBlockChanges(p[2..]);
    } else if p == "/" {
      assert p + "//" == "///" && "///"[2..] == "/" && AfterLine("/") == [];
    } else {
      UnsettledInterferes(p[1..]);
      ConsKeepsDifference(p[0], Code(p[1..] + "//"), Code(p[1..]));
      ConsKeepsDifference(p[0], Code(p[1..] + "x"), Code(p[1..]) + "x");
      assert [p[0]] + (Code(p[1..]) + "x") == Code(p) + "x";
    }
  }

  lemma ConsKeepsDifference(c: char, a: string, b: string)
    ensures a != b ==> [c] + a != [c] + b
  {
    assert ([c] + a)[1..] == a && ([c] + b)[1..] == b;
  }

  lemma {:induction false} OpenLineSwallows(s: string)
    requires AfterLine(s) == []
    ensures AfterLine(s + "x") == []
  {
    if s == [] {
      assert s + "x" == "x";
    } else {
      Tails(s, "x");
      OpenLineSwallows(s[1..]);
    }
  }

  lemma {:induction false} OpenStringGrows(s: string, escape: bool)
    requires !StringSettled(s, escape)
    ensures InString(s + "//", escape) != InString(s, escape) || InString(s + "x", escape) != InString(s, escape) + "x"
    decreases |s|, 0
  {
    if s == [] {
      assert s + "//" == "//" && InString("//", escape)[0] == '/';
    } else {
      Tails(s, "//");
      Tails(s, "x");
      if !escape && s[0] == '"' {
        assert Code("//") == [] && Code("x") == "x";
        UnsettledInterferes(s[1..]);
        ConsKeepsDifference(s[0], Code(s[1..] + "//"), Code(s[1..]));
        ConsKeepsDifference(s[0], Code(s[1..] + "x"), Code(s[1..]) + "x");
      } else {
        var next := !escape && s[0] == '\\';
        OpenStringGrows(s[1..], next);
        ConsKeepsDifference(s[0], InString(s[1..] + "//", next), InString(s[1..], next));
        ConsKeepsDifference(s[0], InString(s[1..] + "x", next), InString(s[1..], next) + "x");
      }
      assert [s[0]] + (InString(s, escape)[1..] + "x") == InString(s, escape) + "x";
    }
  }

  lemma {:induction false} OpenBlockChanges(s: string)
    requires !BlockSettled(s)
    ensures InBlock(s + "//") != InBlock(s) || InBlock(s + "x") != InBlock(s) + "x"
    decreases |s|, 1
  {
    if s == [] {
      assert s + "//" == "//";
      assert "//"[1..] == "/" && InBlock("//") == " /";
    } else if |s| == 1 {
      var t := s + "//";
      assert t[1..] == "//" && t[2..] == "/" && "//"[1..] == "/" && InBlock("//") == " /";
      assert Code(s) == s && Code("/") == "/";
      assert |InBlock(t)| == 3 || (s == "*" && InBlock(t) == "/");
    } else {
      Tails(s, "//");
      Tails(s, "x");
      if ClosesBlockComment(s) {
        assert Code("//") == [] && Code("x") == "x";
        UnsettledInterferes(s[2..]);
      } else {
        OpenBlockChanges(s[1..]);
        ConsKeepsDifference(Blank(s[0]), InBlock(s[1..] + "//"), InBlock(s[1..]));
        ConsKeepsDifference(Blank(s[0]), InBlock(s[1..] + "x"), InBlock(s[1..]) + "x");
        assert [Blank(s[0])] + (InBlock(s[1..]) + "x") == InBlock(s) + "x";
      }
    }
  }

  // ----- Comments put in, and stripped again -----

  function Blanks(body: string): (r: string)
    ensures |r| == |body|
  {
    seq(|body|, i requires 0 <= i < |body| => Blank(body[i]))
  }

  ghost predicate HasNoClose(body: string) {
    forall i :: 0 <= i < |body| - 1 ==> !(body[i] == '*' && body[i + 1] == '/')
  }

  lemma {:induction false} BlockBody(body: string, q: string)
    requires HasNoClose(body)
    ensures InBlock(body + ("*/" + q)) == Blanks(body) + Code(q)
  {
    var text := body + ("*/" + q);
    if body == [] {
      assert text[2..] == q;
      assert Blanks(body) + Code(q) == Code(q);
    } else {
      assert text[1..] == body[1..] + ("*/" + q);
      assert !ClosesBlockComment(text) by {
        if |body| >= 2 {
          assert !(body[0] == '*' && body[0 + 1] == '/');
        }
      }
      BlockBody(body[1..], q);
      assert [Blank(body[0])] + (Blanks(body[1..]) + Code(q)) == Blanks(body) + Code(q);
    }
  }

  /** A closed block comment put where the lexer is settled is stripped to blanks and line feeds
      of its own length; the text around it is stripped as if it were not there. */
  lemma BlockCommentStripsToBlanks(p: string, body: string, q: string)
    requires Settled(p) && HasNoClose(body)
    ensures Code(p + ("/*" + (body + ("*/" + q)))) == Code(p) + (Blanks(body) + Code(q))
  {
    var closed := body + ("*/" + q);
    SettledComposes(p, "/*" + closed);
    OpenBlock(closed);
    BlockBody(body, q);
  }

  lemma {:induction false} LineBody(body: string, q: string)
    requires q != [] && IsLineBreak(q[0])
    requires forall i :: 0 <= i < |body| ==> !IsLineBreak(body[i])
    ensures AfterLine(body + q) == q
  {
    if body == [] {
      assert body + q == q;
    } else {
      assert (body + q)[1..] == body[1..] + q;
      LineBody(body[1..], q);
    }
  }

  /** A line comment put where the lexer is settled leaves only its line break behind. */
  lemma LineCommentStripsToLineBreak(p: string, body: string, lineBreak: char, q: string)
    requires Settled(p) && IsLineBreak(lineBreak)
    requires forall i :: 0 <= i < |body| ==> !IsLineBreak(body[i])
    ensures Code(p + ("//" + (body + ([lineBreak] + q)))) == Code(p) + ([lineBreak] + Code(q))
  {
    var ended := body + ([lineBreak] + q);
    SettledComposes(p, "//" + ended);
    OpenLine(ended);
    LineBody(body, [lineBreak] + q);
    LineBreakFirst(lineBreak, q);
  }

  // ----- Texts without comments -----

  /** No `/` occurs outside the string literals, as in any JSON text. */
  predicate SlashFree(s: string)
    decreases |s|
  {
    if s == [] then true
    else if s[0] == '"' then StringSlashFree(s[1..], false)
    else s[0] != '/' && SlashFree(s[1..])
  }

  predicate StringSlashFree(s: string, escape: bool)
    decreases |s|
  {
    if s == [] then true
    else if !escape && s[0] == '"' then SlashFree(s[1..])
    else StringSlashFree(s[1..], !escape && s[0] == '\\')
  }

  lemma {:induction false} WithoutSlashIsSlashFree(s: string)
    requires forall i :: 0 <= i < |s| ==> s[i] != '/'
    ensures SlashFree(s) && StringSlashFree(s, false) && StringSlashFree(s, true)
  {
    if s != [] {
      WithoutSlashIsSlashFree(s[1..]);
    }
  }

  /** Stripping leaves such a text as it is. */
  lemma {:induction false} SlashFreeIsUnchanged(s: string)
    requires SlashFree(s)
    ensures Code(s) == s
    decreases |s|
  {
    if s != [] {
      if s[0] == '"' {
        StringIsUnchanged(s[1..], false);
      } else {
        SlashFreeIsUnchanged(s[1..]);
      }
    }
  }

  lemma {:induction false} StringIsUnchanged(s: string, escape: bool)
    requires StringSlashFree(s, escape)
    ensures InString(s, escape) == s
    decreases |s|
  {
    if s != [] {
      if !escape && s[0] == '"' {
        SlashFreeIsUnchanged(s[1..]);
      } else {
        StringIsUnchanged(s[1..], !escape && s[0] == '\\');
      }
    }
  }

  /** Cut outside its strings, such a text falls into two that stripping leaves as they are. */
  lemma SlashFreeParts(p: string, q: string)
    requires Settled(p) && SlashFree(p + q)
    ensures Code(p) == p && Code(q) == q
  {
    SlashFreeIsUnchanged(p + q);
    SettledComposes(p, q);
    StrippingKeepsLines(p);
    StrippingKeepsLines(q);
    assert (p + q)[..|p|] == p && (Code(p) + Code(q))[..|p|] == Code(p);
    assert (p + q)[|p|..] == q && (Code(p) + Code(q))[|p|..] == Code(q);
  }

  /** The round trip: a closed block comment put into such a text outside its strings and stripped again
      gives the text back with only blanks and line feeds in the comment's place. */
  lemma BlockCommentRoundTrip(p: string, body: string, q: string)
    requires Settled(p) && SlashFree(p + q) && HasNoClose(body)
    ensures Code(p + ("/*" + (body + ("*/" + q)))) == p + (Blanks(body) + q)
    ensures forall i :: 0 <= i < |body| ==> Blanks(body)[i] == (if IsLineBreak(body[i]) then '\n' else ' ')
  {
    SlashFreeParts(p, q);
    BlockCommentStripsToBlanks(p, body, q);
  }

  /** And a line comment with its line break gives it back with only the line break. */
  lemma LineCommentRoundTrip(p: string, body: string, lineBreak: char, q: string)
    requires Settled(p) && SlashFree(p + q) && IsLineBreak(lineBreak)
    requires forall i :: 0 <= i < |body| ==> !IsLineBreak(body[i])
    ensures Code(p + ("//" + (body + ([lineBreak] + q)))) == p + ([lineBreak] + q)
  {
    SlashFreeParts(p, q);
    LineCommentStripsToLineBreak(p, body, lineBreak, q);
  }

  /** A line comment on top of a text without any `/`. */
  lemma LeadingCommentStrips(comment: string, text: string)
    requires forall i :: 0 <= i < |comment| ==> !IsLineBreak(comment[i])
    requires forall i :: 0 <= i < |text| ==> text[i] != '/'
    ensures Code("//" + comment + "\n" + text) == "\n" + text
  {
    WithoutSlashIsSlashFree(text);
    assert "" + text == text && "" + ("\n" + text) == "\n" + text;
    LineCommentRoundTrip("", comment, '\n', text);
    assert "" + ("//" + (comment + (['\n'] + text))) == "//" + comment + "\n" + text;
  }

  lemma OpenLine(r: string)
    ensures Code("//" + r) == Code(AfterLine(r))
  {
    assert ("//" + r)[2..] == r;
  }

  lemma OpenBlock(r: string)
    ensures Code("/*" + r) == InBlock(r)
  {
    assert ("/*" + r)[2..] == r;
  }

  lemma LineBreakFirst(lineBreak: char, q: string)
    requires IsLineBreak(lineBreak)
    ensures Code([lineBreak] + q) == [lineBreak] + Code(q)
  {
    assert ([lineBreak] + q)[1..] == q;
  }

  /** The loop needs two characters to look for the closing mark, so a block comment that is never
      closed hands its last character back to the JSON text. */
  lemma UnclosedBlockLeaksItsLastCharacter(p: string, body: string)
    requires Settled(p) && HasNoClose(body) && body != []
    ensures Code(p + ("/*" + body)) == Code(p) + (Blanks(body[..|body| - 1]) + [body[|body| - 1]])
  {
    SettledComposes(p, "/*" + body);
    UnclosedComment(body);
  }

  lemma UnclosedComment(body: string)
    requires HasNoClose(body) && body != []
    ensures Code("/*" + body) == Blanks(body[..|body| - 1]) + [body[|body| - 1]]
  {
    OpenBlock(body);
    UnclosedBody(body);
  }

  lemma {:induction false} UnclosedBody(body: string)
    requires HasNoClose(body) && body != []
    ensures InBlock(body) == Blanks(body[..|body| - 1]) + [body[|body| - 1]]
  {
    var n := |body| - 1;
    if n == 0 {
      assert InBlock(body) == Code(body) == body;
    } else {
      assert !(body[0] == '*' && body[0 + 1] == '/');
      UnclosedBody(body[1..]);
      assert body[1..][..n - 1] == body[1..n];
      assert [Blank(body[0])] + Blanks(body[1..n]) == Blanks(body[..n]);
    }
  }
}
