/**
 * The comment stripper of scripts/populate-openrouter-free-models.mjs, proved
 * against a declarative account of what a commented JSON text is made of.
 */
module JsonComments {
  import opened Base

  datatype Segment =
    | Code(c: char)
    | Literal(text: string)
    | Line(text: string)
    | Block(text: string)

  function Spelling(seg: Segment): string {
    match seg
    case Code(c) => [c]
    case Literal(t) => t
    case Line(t) => t
    case Block(t) => t
  }

  function Text(segs: seq<Segment>): string {
    if segs == [] then "" else Spelling(segs[0]) + Text(segs[1..])
  }

  // ----- what a segment may look like, and what may follow it

  predicate IsQuote(c: char) {
    c == '"' || c == '\''
  }

  /**
   * The rest of a string after its opening quote `q`: units up to and including
   * the first unescaped `q`.
   */
  predicate Closed(t: string, q: char) {
    if t == "" then false
    else if t[0] == '\\' then |t| >= 2 && Closed(t[2..], q)
    else if t[0] == q then |t| == 1
    else Closed(t[1..], q)
  }

  /** The rest of a string that the text ends before closing. */
  predicate Unclosed(t: string, q: char) {
    t == "" || t == "\\"
    || (t[0] == '\\' && |t| >= 2 && Unclosed(t[2..], q))
    || (t[0] != '\\' && t[0] != q && Unclosed(t[1..], q))
  }

  predicate StarSlashAt(t: string, i: int) {
    0 <= i < |t| - 1 && t[i] == '*' && t[i + 1] == '/'
  }

  ghost predicate Fits(seg: Segment, rest: string) {
    match seg
    case Code(c) =>
      && !IsQuote(c)
      && (c == '/' && rest != "" ==> rest[0] != '/' && rest[0] != '*')
    case Literal(t) =>
      && |t| >= 1 && IsQuote(t[0])
      && (Closed(t[1..], t[0]) || (rest == "" && Unclosed(t[1..], t[0])))
    case Line(t) =>
      && |t| >= 2 && t[0] == '/' && t[1] == '/'
      && (forall i :: 0 <= i < |t| - 1 ==> t[i] != '\n')
      && (t[|t| - 1] == '\n' || rest == "")
    case Block(t) =>
      && |t| >= 2 && t[0] == '/' && t[1] == '*'
      && (forall i :: 2 <= i < |t| - 2 ==> !StarSlashAt(t, i))
      && ((|t| >= 4 && StarSlashAt(t, |t| - 2))
          || (rest == "" && (|t| >= 4 ==> !StarSlashAt(t, |t| - 2))))
  }

  ghost predicate Lexed(segs: seq<Segment>) {
    segs != [] ==> Fits(segs[0], Text(segs[1..])) && Lexed(segs[1..])
  }

  // ----- the lexer

  function LiteralLength(s: string, q: char): (n: nat)
    ensures n <= |s|
  {
    if |s| <= 1 then |s|
    else if s[0] == '\\' then 2 + LiteralLength(s[2..], q)
    else if s[0] == q then 1
    else 1 + LiteralLength(s[1..], q)
  }

  function LineLength(s: string): (n: nat)
    ensures n <= |s|
  {
    if s == "" then 0 else if s[0] == '\n' then 1 else 1 + LineLength(s[1..])
  }

  function BlockLength(s: string): (n: nat)
    ensures n <= |s|
  {
    if s == "" then 0 else if StarSlashAt(s, 0) then 2 else 1 + BlockLength(s[1..])
  }

  function First(s: string): (seg: Segment)
    requires s != ""
    ensures Spelling(seg) != "" && Spelling(seg) <= s
  {
    if IsQuote(s[0]) then Literal(s[..1 + LiteralLength(s[1..], s[0])])
    else if |s| >= 2 && s[0] == '/' && s[1] == '/' then Line(s[..2 + LineLength(s[2..])])
    else if |s| >= 2 && s[0] == '/' && s[1] == '*' then Block(s[..2 + BlockLength(s[2..])])
    else Code(s[0])
  }

  function Lex(s: string): seq<Segment>
    decreases |s|
  {
    if s == "" then [] else [First(s)] + Lex(s[|Spelling(First(s))|..])
  }

  // ----- the segmentation exists and is unique

  lemma {:induction false} LiteralCut(s: string, q: char)
    requires q != '\\'
    ensures Closed(s[..LiteralLength(s, q)], q)
            || (LiteralLength(s, q) == |s| && Unclosed(s, q))
  {
    var n := LiteralLength(s, q);
    if |s| > 1 && s[0] == '\\' {
      LiteralCut(s[2..], q);
      assert s[..n][2..] == s[2..][..n - 2];
    } else if |s| > 1 && s[0] != q {
      LiteralCut(s[1..], q);
      assert s[..n][1..] == s[1..][..n - 1];
    } else if |s| == 1 {
      assert s[..n] == s && s[1..] == "";
    }
  }

  lemma {:induction false} LineCut(s: string)
    ensures forall i :: 0 <= i < LineLength(s) - 1 ==> s[i] != '\n'
    ensures LineLength(s) == |s| || (LineLength(s) > 0 && s[LineLength(s) - 1] == '\n')
  {
    if s != "" && s[0] != '\n' {
      LineCut(s[1..]);
      forall i | 0 < i < LineLength(s) - 1
        ensures s[i] != '\n'
      {
        assert s[i] == s[1..][i - 1];
      }
    }
  }

  lemma {:induction false} BlockCut(s: string)
    ensures forall i :: 0 <= i < BlockLength(s) - 2 ==> !StarSlashAt(s, i)
    ensures (BlockLength(s) >= 2 && StarSlashAt(s, BlockLength(s) - 2))
            || (BlockLength(s) == |s| && (|s| >= 2 ==> !StarSlashAt(s, |s| - 2)))
  {
    if s != "" && !StarSlashAt(s, 0) {
      BlockCut(s[1..]);
      forall i | 0 < i < BlockLength(s) - 2
        ensures !StarSlashAt(s, i)
      {
        assert StarSlashAt(s[1..], i - 1) == StarSlashAt(s, i);
      }
      assert |s| >= 2 ==> StarSlashAt(s[1..], BlockLength(s) - 3) == StarSlashAt(s, BlockLength(s) - 2);
    }
  }

  lemma LiteralFits(s: string)
    requires s != "" && IsQuote(s[0])
    ensures Fits(First(s), s[|Spelling(First(s))|..])
  {
    var tail := s[1..];
    var n := LiteralLength(tail, s[0]);
    LiteralCut(tail, s[0]);
    assert s[..1 + n][1..] == tail[..n];
    assert n == |tail| ==> tail[..n] == tail;
  }

  lemma LineFits(s: string)
    requires |s| >= 2 && s[0] == '/' && s[1] == '/'
    ensures Fits(First(s), s[|Spelling(First(s))|..])
  {
    var n := LineLength(s[2..]);
    LineCut(s[2..]);
    var t := s[..2 + n];
    forall i | 0 <= i < |t| - 1
      ensures t[i] != '\n'
    {
      assert i >= 2 ==> t[i] == s[2..][i - 2];
    }
    assert n > 0 ==> t[|t| - 1] == s[2..][n - 1];
  }

  lemma BlockFits(s: string)
    requires |s| >= 2 && s[0] == '/' && s[1] == '*'
    ensures Fits(First(s), s[|Spelling(First(s))|..])
  {
    var n := BlockLength(s[2..]);
    BlockCut(s[2..]);
    var t := s[..2 + n];
    forall i | 2 <= i < |t| - 2
      ensures !StarSlashAt(t, i)
    {
      assert !StarSlashAt(s[2..], i - 2);
    }
    assert n >= 2 ==> StarSlashAt(s[2..], n - 2) == StarSlashAt(t, |t| - 2);
  }

  lemma FirstFits(s: string)
    requires s != ""
    ensures Fits(First(s), s[|Spelling(First(s))|..])
  {
    if IsQuote(s[0]) {
      LiteralFits(s);
    } else if |s| >= 2 && s[0] == '/' && s[1] == '/' {
      LineFits(s);
    } else if |s| >= 2 && s[0] == '/' && s[1] == '*' {
      BlockFits(s);
    }
  }

  lemma FirstThenRest(s: string, segs: seq<Segment>)
    requires s != ""
    requires Lexed(segs) && Text(segs) == s[|Spelling(First(s))|..]
    ensures Lexed([First(s)] + segs) && Text([First(s)] + segs) == s
  {
    FirstFits(s);
    assert ([First(s)] + segs)[1..] == segs;
  }

  lemma {:induction false} LexIsASegmentation(s: string)
    ensures Text(Lex(s)) == s && Lexed(Lex(s))
    decreases |s|
  {
    if s != "" {
      var rest := s[|Spelling(First(s))|..];
      LexIsASegmentation(rest);
      FirstThenRest(s, Lex(rest));
    }
  }

  lemma {:induction false} ClosedCut(t: string, q: char, rest: string)
    requires Closed(t, q)
    requires q != '\\'
    ensures LiteralLength(t + rest, q) == |t|
  {
    if t[0] == '\\' {
      ClosedCut(t[2..], q, rest);
      assert (t + rest)[2..] == t[2..] + rest;
    } else if t[0] != q {
      ClosedCut(t[1..], q, rest);
      assert (t + rest)[1..] == t[1..] + rest;
    }
  }

  lemma {:induction false} UnclosedCut(t: string, q: char)
    requires Unclosed(t, q)
    requires q != '\\'
    ensures LiteralLength(t, q) == |t|
  {
    if |t| >= 2 {
      UnclosedCut(if t[0] == '\\' then t[2..] else t[1..], q);
    }
  }

  lemma {:induction false} LineCutBack(t: string, rest: string)
    requires forall i :: 0 <= i < |t| - 1 ==> t[i] != '\n'
    requires rest == "" || (t != "" && t[|t| - 1] == '\n')
    ensures LineLength(t + rest) == |t|
  {
    if t == "" {
    } else if t[0] != '\n' {
      assert (t + rest)[1..] == t[1..] + rest;
      assert forall i :: 0 <= i < |t[1..]| - 1 ==> t[1..][i] == t[i + 1];
      LineCutBack(t[1..], rest);
    } else {
      assert (t + rest)[0] == '\n';
    }
  }

  lemma {:induction false} BlockCutBack(t: string, rest: string)
    requires forall i :: 0 <= i < |t| - 2 ==> !StarSlashAt(t, i)
    requires StarSlashAt(t, |t| - 2) || rest == ""
    ensures BlockLength(t + rest) == |t|
  {
    var s := t + rest;
    if |t| <= 1 {
      assert s == t;
    } else if StarSlashAt(t, 0) {
      assert !(0 < |t| - 2);
      assert StarSlashAt(s, 0);
    } else {
      assert !StarSlashAt(s, 0);
      assert s[1..] == t[1..] + rest;
      forall i | 0 <= i < |t[1..]| - 2
        ensures !StarSlashAt(t[1..], i)
      {
        assert !StarSlashAt(t, i + 1);
      }
      assert |t| >= 3 ==> StarSlashAt(t[1..], |t| - 3) == StarSlashAt(t, |t| - 2);
      BlockCutBack(t[1..], rest);
    }
  }


  lemma FitsIsFirst(seg: Segment, rest: string)
    requires Fits(seg, rest)
    ensures Spelling(seg) + rest != "" && First(Spelling(seg) + rest) == seg
  {
    var t := Spelling(seg);
    var s := t + rest;
    match seg
    case Code(c) =>
      assert s[1..] == rest;
    case Literal(_) =>
      assert s[1..] == t[1..] + rest;
      if Closed(t[1..], t[0]) {
        ClosedCut(t[1..], t[0], rest);
      } else {
        assert s == t;
        UnclosedCut(t[1..], t[0]);
      }
      assert s[..|t|] == t;
    case Line(_) =>
      assert s[2..] == t[2..] + rest;
      assert forall i :: 0 <= i < |t| - 2 ==> t[2..][i] == t[i + 2];
      LineCutBack(t[2..], rest);
      assert s[..|t|] == t;
    case Block(_) =>
      assert s[2..] == t[2..] + rest;
      forall i | 0 <= i < |t| - 4
        ensures !StarSlashAt(t[2..], i)
      {
        assert !StarSlashAt(t, i + 2);
      }
      assert |t| >= 4 ==> StarSlashAt(t[2..], |t| - 4) == StarSlashAt(t, |t| - 2);
      BlockCutBack(t[2..], rest);
      assert s[..|t|] == t;
  }

  /** A text has one segmentation: the declarative account is unambiguous. */
  lemma {:induction false} SegmentationIsUnique(segs: seq<Segment>)
    requires Lexed(segs)
    ensures Lex(Text(segs)) == segs
  {
    if segs != [] {
      var rest := Text(segs[1..]);
      FitsIsFirst(segs[0], rest);
      SegmentationIsUnique(segs[1..]);
      assert Text(segs)[|Spelling(segs[0])|..] == rest;
    }
  }

  // ----- what stripping should produce

  function Breaks(t: string): nat {
    if t == "" then 0 else (if t[0] == '\n' then 1 else 0) + Breaks(t[1..])
  }

  function Newlines(n: nat): string {
    seq(n, _ => '\n')
  }

  function Rendered(seg: Segment): string {
    match seg
    case Code(c) => [c]
    case Literal(t) => t
    case Line(_) => "\n"
    case Block(t) => Newlines(Breaks(t))
  }

  function Output(segs: seq<Segment>): string {
    if segs == [] then "" else Rendered(segs[0]) + Output(segs[1..])
  }

  function Stripped(s: string): string {
    Output(Lex(s))
  }

  /**
   * Any function that renders a text segment by segment. The scan is proved for
   * all of them, which keeps the lexer out of the loop's proof.
   */
  ghost predicate BySegment(f: string -> string) {
    && f("") == ""
    && forall s {:trigger First(s)} :: s != "" ==>
         f(s) == Rendered(First(s)) + f(s[|Spelling(First(s))|..])
  }

  lemma StrippedIsBySegment() returns (f: string -> string)
    ensures BySegment(f)
  {
    f := Stripped;
    forall s | s != ""
      ensures f(s) == Rendered(First(s)) + f(s[|Spelling(First(s))|..])
    {
      var rest := s[|Spelling(First(s))|..];
      assert Lex(s)[1..] == Lex(rest);
    }
  }

  lemma {:induction false} BySegmentIsStripped(f: string -> string, s: string)
    requires BySegment(f)
    ensures f(s) == Stripped(s)
    decreases |s|
  {
    if s != "" {
      var rest := s[|Spelling(First(s))|..];
      BySegmentIsStripped(f, rest);
      assert Lex(s)[1..] == Lex(rest);
    }
  }

  // ----- the loop

  /**
   * What is still to be produced when the scan stands inside a string, inside a
   * line comment or inside a block comment.
   */
  function FromString(f: string -> string, s: string, q: char): string {
    var n := LiteralLength(s, q);
    s[..n] + f(s[n..])
  }

  function From(raw: string, index: nat): string {
    if index <= |raw| then raw[index..] else ""
  }

  lemma Regroup(a: string, b: string, c: string)
    ensures a + (b + c) == (a + b) + c
  {
  }

  lemma Resplit(s: string, k: nat, m: nat)
    requires k + m <= |s|
    ensures s[..k + m] == s[..k] + s[k..][..m]
    ensures s[k + m..] == s[k..][m..]
  {
  }

  lemma LiteralStep(f: string -> string, s: string, q: char, k: nat)
    requires BySegment(f)
    requires 1 <= k <= |s|
    requires LiteralLength(s, q) == k + LiteralLength(s[k..], q)
    ensures FromString(f, s, q) == s[..k] + FromString(f, s[k..], q)
  {
    Resplit(s, k, LiteralLength(s[k..], q));
  }

  lemma LiteralCloses(f: string -> string, s: string, q: char)
    requires BySegment(f)
    requires s != "" && s[0] == q && q != '\\'
    ensures FromString(f, s, q) == [q] + f(s[1..])
  {
    assert s[..1] == [q];
  }

  lemma OpensString(f: string -> string, s: string)
    requires BySegment(f)
    requires s != "" && IsQuote(s[0])
    ensures f(s) == [s[0]] + FromString(f, s[1..], s[0])
  {
    assert f(s) == Rendered(First(s)) + f(s[|Spelling(First(s))|..]);
    var tail := s[1..];
    var n := LiteralLength(tail, s[0]);
    Resplit(s, 1, n);
    assert s[..1] == [s[0]];
    Regroup([s[0]], tail[..n], f(tail[n..]));
  }

  lemma OpensLine(f: string -> string, s: string)
    requires BySegment(f)
    requires |s| >= 2 && s[0] == '/' && s[1] == '/'
    ensures f(s) == "\n" + f(s[LineLength(s)..])
  {
    assert f(s) == Rendered(First(s)) + f(s[|Spelling(First(s))|..]);
    assert s[1..][1..] == s[2..];
  }

  lemma {:induction false} BreaksAppend(a: string, b: string)
    ensures Breaks(a + b) == Breaks(a) + Breaks(b)
  {
    if a == "" {
      assert a + b == b;
    } else {
      assert (a + b)[1..] == a[1..] + b;
      BreaksAppend(a[1..], b);
    }
  }

  lemma OpensBlock(f: string -> string, s: string)
    requires BySegment(f)
    requires |s| >= 2 && s[0] == '/' && s[1] == '*'
    ensures f(s) == Newlines(Breaks(s[2..][..BlockLength(s[2..])])) + f(s[2 + BlockLength(s[2..])..])
  {
    var n := BlockLength(s[2..]);
    assert f(s) == Rendered(First(s)) + f(s[|Spelling(First(s))|..]);
    Resplit(s, 2, n);
    BreaksAppend("/*", s[2..][..n]);
    assert s[..2] == "/*";
    assert Breaks("/*"[1..]) == 0;
  }

  /** The scan at `index`, outside strings, has emitted `result` and owes the rest. */
  ghost predicate Outside(f: string -> string, raw: string, index: nat, result: string) {
    result + f(From(raw, index)) == f(raw)
  }

  ghost predicate Inside(f: string -> string, raw: string, index: nat, result: string, q: char) {
    IsQuote(q) && result + FromString(f, From(raw, index), q) == f(raw)
  }

  lemma TailOf(raw: string, index: nat, k: nat)
    requires index + k <= |raw|
    ensures From(raw, index)[k..] == From(raw, index + k)
  {
  }

  lemma CodeStep(f: string -> string, raw: string, index: nat, result: string)
    requires BySegment(f)
    requires index < |raw| && Outside(f, raw, index, result)
    requires !IsQuote(raw[index])
    requires raw[index] == '/' && index + 1 < |raw| ==> raw[index + 1] != '/' && raw[index + 1] != '*'
    ensures Outside(f, raw, index + 1, result + [raw[index]])
  {
    assert f(raw[index..]) == Rendered(First(raw[index..])) + f(raw[index..][1..]);
    TailOf(raw, index, 1);
  }

  lemma QuoteStep(f: string -> string, raw: string, index: nat, result: string)
    requires BySegment(f)
    requires index < |raw| && Outside(f, raw, index, result) && IsQuote(raw[index])
    ensures Inside(f, raw, index + 1, result + [raw[index]], raw[index])
  {
    OpensString(f, raw[index..]);
    TailOf(raw, index, 1);
  }

  lemma ScanStarts(f: string -> string, raw: string)
    requires BySegment(f)
    ensures Outside(f, raw, 0, "")
  {
    assert From(raw, 0) == raw;
  }

  lemma ScanEnds(f: string -> string, raw: string, index: nat, result: string)
    requires BySegment(f)
    requires index >= |raw|
    ensures Outside(f, raw, index, result) ==> result == f(raw)
    ensures forall q :: Inside(f, raw, index, result, q) ==> result == f(raw)
  {
    assert From(raw, index) == "";
    assert f("") == "";
    assert forall q :: FromString(f, "", q) == "";
  }

  lemma EscapeStep(f: string -> string, raw: string, index: nat, result: string, q: char)
    requires BySegment(f)
    requires index < |raw| && Inside(f, raw, index, result, q) && raw[index] == '\\'
    ensures index + 1 < |raw| ==> Inside(f, raw, index + 2, result + [raw[index]] + [raw[index + 1]], q)
    ensures index + 1 == |raw| ==> Inside(f, raw, index + 2, result + [raw[index]], q)
  {
    if index + 1 < |raw| {
      LiteralStep(f, raw[index..], q, 2);
      TailOf(raw, index, 2);
      assert raw[index..][..2] == [raw[index]] + [raw[index + 1]];
      var rest := FromString(f, From(raw, index + 2), q);
      Regroup(result, [raw[index]] + [raw[index + 1]], rest);
      Regroup(result, [raw[index]], [raw[index + 1]]);
    } else {
      assert raw[index..] == [raw[index]];
      assert FromString(f, [raw[index]], q) == [raw[index]] && FromString(f, "", q) == "";
    }
  }

  lemma InsideStep(f: string -> string, raw: string, index: nat, result: string, q: char)
    requires BySegment(f)
    requires index < |raw| && Inside(f, raw, index, result, q) && raw[index] != '\\'
    ensures raw[index] == q ==> Outside(f, raw, index + 1, result + [raw[index]])
    ensures raw[index] != q ==> Inside(f, raw, index + 1, result + [raw[index]], q)
  {
    TailOf(raw, index, 1);
    if raw[index] == q {
      LiteralCloses(f, raw[index..], q);
      Regroup(result, [q], f(From(raw, index + 1)));
    } else {
      LiteralStep(f, raw[index..], q, 1);
      assert raw[index..][..1] == [raw[index]];
      Regroup(result, [raw[index]], FromString(f, From(raw, index + 1), q));
    }
  }

  lemma {:induction false} LineReaches(s: string, n: nat)
    requires n <= |s| && (n == |s| || s[n] == '\n')
    requires forall k :: 0 <= k < n ==> s[k] != '\n'
    ensures LineLength(s) == if n == |s| then n else n + 1
  {
    if n > 0 {
      assert forall k :: 0 <= k < n - 1 ==> s[1..][k] == s[k + 1];
      LineReaches(s[1..], n - 1);
    }
  }

  lemma LineStep(f: string -> string, raw: string, start: nat, index: nat, result: string)
    requires BySegment(f)
    requires start + 1 < |raw| && Outside(f, raw, start, result)
    requires raw[start] == '/' && raw[start + 1] == '/'
    requires start <= index <= |raw| && (index == |raw| || raw[index] == '\n')
    requires forall k :: start <= k < index ==> raw[k] != '\n'
    ensures Outside(f, raw, index + 1, result + "\n")
  {
    OpensLine(f, raw[start..]);
    LineReaches(raw[start..], index - start);
    var n := LineLength(raw[start..]);
    TailOf(raw, start, n);
    assert From(raw, start + n) == From(raw, index + 1);
    Regroup(result, "\n", f(From(raw, index + 1)));
  }

  lemma {:induction false} BlockReaches(s: string, n: nat)
    requires n <= |s| && (n == |s| || StarSlashAt(s, n))
    requires forall k :: 0 <= k < n ==> !StarSlashAt(s, k)
    ensures BlockLength(s) == if n == |s| then n else n + 2
  {
    if n > 0 {
      assert forall k :: StarSlashAt(s[1..], k) ==> StarSlashAt(s, k + 1);
      assert n < |s| ==> StarSlashAt(s[1..], n - 1);
      BlockReaches(s[1..], n - 1);
    }
  }

  lemma BlockBody(body: string, n: nat)
    requires n <= |body| && (n == |body| || StarSlashAt(body, n))
    requires forall k :: 0 <= k < n ==> !StarSlashAt(body, k)
    ensures Breaks(body[..BlockLength(body)]) == Breaks(body[..n])
  {
    BlockReaches(body, n);
    if n < |body| {
      BreaksAppend(body[..n], "*/");
      assert body[..n + 2] == body[..n] + "*/";
      assert Breaks("*/"[1..]) == 0;
    }
  }

  lemma BlockOwes(f: string -> string, s: string, n: nat)
    requires BySegment(f)
    requires |s| >= 2 && s[0] == '/' && s[1] == '*'
    requires 2 + n <= |s| && (2 + n == |s| || StarSlashAt(s, 2 + n))
    requires forall k :: 2 <= k < 2 + n ==> !StarSlashAt(s, k)
    ensures f(s) == Newlines(Breaks(s[2..2 + n])) + f(From(s, 4 + n))
  {
    var body := s[2..];
    assert forall k :: StarSlashAt(body, k) ==> StarSlashAt(s, 2 + k);
    assert n < |body| ==> StarSlashAt(body, n);
    BlockReaches(body, n);
    BlockBody(body, n);
    OpensBlock(f, s);
    assert body[..n] == s[2..2 + n];
    assert s[2 + BlockLength(body)..] == From(s, 4 + n);
  }

  lemma BlockStep(f: string -> string, raw: string, start: nat, index: nat, result: string)
    requires BySegment(f)
    requires start + 1 < |raw| && Outside(f, raw, start, result)
    requires raw[start] == '/' && raw[start + 1] == '*'
    requires start + 2 <= index <= |raw| && (index == |raw| || StarSlashAt(raw, index))
    requires forall k :: start + 2 <= k < index ==> !StarSlashAt(raw, k)
    ensures Outside(f, raw, index + 2, result + Newlines(Breaks(raw[start + 2..index])))
  {
    var here, n := raw[start..], index - (start + 2);
    assert forall k :: StarSlashAt(here, k) ==> StarSlashAt(raw, start + k);
    assert index < |raw| ==> StarSlashAt(here, 2 + n);
    BlockOwes(f, here, n);
    assert here[2..2 + n] == raw[start + 2..index];
    assert From(here, 4 + n) == From(raw, index + 2);
    Regroup(result, Newlines(Breaks(raw[start + 2..index])), f(From(raw, index + 2)));
  }

  // ----- the inner loops, which move `index` to the end of a comment

  method SkipLine(raw: string, start: nat) returns (index: nat)
    requires start <= |raw|
    ensures start <= index <= |raw| && (index == |raw| || raw[index] == '\n')
    ensures forall k :: start <= k < index ==> raw[k] != '\n'
  {
    index := start;
    while index < |raw| && raw[index] != '\n'
      invariant start <= index <= |raw|
      invariant forall k :: start <= k < index ==> raw[k] != '\n'
    {
      index := index + 1;
    }
  }

  method SkipBlock(raw: string, start: nat) returns (index: nat, newlines: string)
    requires start <= |raw|
    ensures start <= index <= |raw| && (index == |raw| || StarSlashAt(raw, index))
    ensures forall k :: start <= k < index ==> !StarSlashAt(raw, k)
    ensures newlines == Newlines(Breaks(raw[start..index]))
  {
    index, newlines := start, "";
    while index < |raw| && !(raw[index] == '*' && index + 1 < |raw| && raw[index + 1] == '/')
      invariant start <= index <= |raw|
      invariant forall k :: start <= k < index ==> !StarSlashAt(raw, k)
      invariant newlines == Newlines(Breaks(raw[start..index]))
    {
      BreaksAppend(raw[start..index], [raw[index]]);
      assert raw[start..index + 1] == raw[start..index] + [raw[index]];
      newlines := newlines + if raw[index] == '\n' then "\n" else "";
      index := index + 1;
    }
  }

  /** The source's scan yields the rendering of the text's only segmentation. */
  method StripJsonComments(raw: string) returns (result: string)
    ensures result == Stripped(raw)
  {
    result := "";
    var quote: Option<char> := None;
    var index: nat := 0;
    ghost var f := StrippedIsBySegment();
    ScanStarts(f, raw);
    while index < |raw|
      invariant quote.None? ==> Outside(f, raw, index, result)
      invariant quote.Some? ==> Inside(f, raw, index, result, quote.value)
    {
      var ch := raw[index];
      if quote.Some? {
        if ch == '\\' {
          EscapeStep(f, raw, index, result, quote.value);
        } else {
          InsideStep(f, raw, index, result, quote.value);
        }
        result := result + [ch];
        if ch == '\\' {
          index := index + 1;
          if index < |raw| {
            result := result + [raw[index]];
          }
        } else if ch == quote.value {
          quote := None;
        }
      } else if ch == '"' || ch == '\'' {
        QuoteStep(f, raw, index, result);
        quote := Some(ch);
        result := result + [ch];
      } else if ch == '/' && index + 1 < |raw| && raw[index + 1] == '/' {
        ghost var start := index;
        index := SkipLine(raw, index);
        LineStep(f, raw, start, index, result);
        result := result + "\n";
      } else if ch == '/' && index + 1 < |raw| && raw[index + 1] == '*' {
        ghost var start := index;
        var newlines;
        index, newlines := SkipBlock(raw, index + 2);
        BlockStep(f, raw, start, index, result);
        result := result + newlines;
        index := index + 1;
      } else {
        CodeStep(f, raw, index, result);
        result := result + [ch];
      }
      index := index + 1;
    }
    ScanEnds(f, raw, index, result);
    BySegmentIsStripped(f, raw);
  }
}
