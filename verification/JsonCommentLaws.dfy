/** What stripping comments guarantees about every text. */
module JsonCommentLaws {
  import opened JsonComments

  predicate IsComment(seg: Segment) {
    seg.Line? || seg.Block?
  }

  /**
   * The segmentation left after stripping: a line comment becomes a newline in
   * code, a block comment its newlines.
   */
  function Breaking(n: nat): seq<Segment> {
    if n == 0 then [] else [Code('\n')] + Breaking(n - 1)
  }

  function KeptOf(seg: Segment): seq<Segment> {
    match seg
    case Code(_) => [seg]
    case Literal(_) => [seg]
    case Line(_) => Breaking(1)
    case Block(t) => Breaking(Breaks(t))
  }

  function Kept(segs: seq<Segment>): seq<Segment> {
    if segs == [] then [] else KeptOf(segs[0]) + Kept(segs[1..])
  }

  lemma {:induction false} TextAppend(a: seq<Segment>, b: seq<Segment>)
    ensures Text(a + b) == Text(a) + Text(b)
  {
    if a == [] {
      assert a + b == b;
    } else {
      assert (a + b)[1..] == a[1..] + b;
      TextAppend(a[1..], b);
    }
  }

  lemma {:induction false} BreakingSpells(n: nat)
    ensures Text(Breaking(n)) == Newlines(n)
  {
    if n > 0 {
      BreakingSpells(n - 1);
      assert Breaking(n)[1..] == Breaking(n - 1);
      assert Newlines(n) == ['\n'] + Newlines(n - 1);
    }
  }

  lemma KeptOfSpells(seg: Segment)
    ensures Text(KeptOf(seg)) == Rendered(seg)
  {
    match seg
    case Code(_) => assert KeptOf(seg)[1..] == [];
    case Literal(_) => assert KeptOf(seg)[1..] == [];
    case Line(_) => BreakingSpells(1);
    case Block(t) => BreakingSpells(Breaks(t));
  }

  lemma {:induction false} KeptSpells(segs: seq<Segment>)
    ensures Text(Kept(segs)) == Output(segs)
  {
    if segs != [] {
      KeptSpells(segs[1..]);
      KeptOfSpells(segs[0]);
      TextAppend(KeptOf(segs[0]), Kept(segs[1..]));
    }
  }

  lemma {:induction false} BreakingLexed(n: nat, segs: seq<Segment>)
    requires Lexed(segs)
    ensures Lexed(Breaking(n) + segs)
  {
    if n == 0 {
      assert Breaking(n) + segs == segs;
    } else {
      BreakingLexed(n - 1, segs);
      assert (Breaking(n) + segs)[1..] == Breaking(n - 1) + segs;
    }
  }

  lemma SpelledHead(segs: seq<Segment>)
    requires Lexed(segs) && segs != []
    ensures Text(segs) != "" && Text(segs)[0] == Spelling(segs[0])[0]
  {
  }

  /** A slash in code stays apart from a slash or star that follows in the output. */
  lemma KeptHead(segs: seq<Segment>)
    requires Lexed(segs)
    requires Text(segs) != "" ==> Text(segs)[0] != '/' && Text(segs)[0] != '*'
    ensures Text(Kept(segs)) != "" ==> Text(Kept(segs))[0] != '/' && Text(Kept(segs))[0] != '*'
  {
    if segs != [] {
      SpelledHead(segs);
      assert !IsComment(segs[0]);
      assert Kept(segs)[0] == segs[0];
    }
  }

  lemma {:induction false} KeptIsLexed(segs: seq<Segment>)
    requires Lexed(segs)
    ensures Lexed(Kept(segs))
    ensures forall seg :: seg in Kept(segs) ==> !IsComment(seg)
  {
    if segs != [] {
      var rest := segs[1..];
      KeptIsLexed(rest);
      if IsComment(segs[0]) {
        var n := if segs[0].Line? then 1 else Breaks(segs[0].text);
        BreakingLexed(n, Kept(rest));
        BreakingIsCode(n);
      } else {
        if Text(rest) == "" && rest != [] {
          SpelledHead(rest);
        }
        if segs[0] == Code('/') {
          KeptHead(rest);
        }
        assert Kept(segs)[1..] == Kept(rest);
      }
    }
  }

  lemma {:induction false} BreakingIsCode(n: nat)
    ensures forall seg :: seg in Breaking(n) ==> seg == Code('\n')
  {
    if n > 0 {
      BreakingIsCode(n - 1);
    }
  }

  /** Outside strings the output opens no comment. */
  lemma OutputHasNoComments(s: string)
    ensures Lex(Stripped(s)) == Kept(Lex(s))
    ensures forall seg :: seg in Lex(Stripped(s)) ==> !IsComment(seg)
  {
    LexIsASegmentation(s);
    KeptIsLexed(Lex(s));
    KeptSpells(Lex(s));
    SegmentationIsUnique(Kept(Lex(s)));
  }

  lemma {:induction false} WithoutComments(segs: seq<Segment>)
    requires forall seg :: seg in segs ==> !IsComment(seg)
    ensures Output(segs) == Text(segs)
  {
    if segs != [] {
      assert segs[0] in segs && forall seg :: seg in segs[1..] ==> seg in segs;
      WithoutComments(segs[1..]);
    }
  }

  lemma {:induction false} BreaksAtMost(t: string)
    ensures Breaks(t) <= |t|
  {
    if t != "" {
      BreaksAtMost(t[1..]);
    }
  }

  lemma RenderedLength(seg: Segment, rest: string)
    requires Fits(seg, rest)
    ensures |Rendered(seg)| <= |Spelling(seg)|
    ensures IsComment(seg) ==> |Rendered(seg)| < |Spelling(seg)|
  {
    if seg.Block? {
      var t := seg.text;
      BreaksAtMost(t[1..]);
    }
  }

  lemma {:induction false} OutputLength(segs: seq<Segment>)
    requires Lexed(segs)
    ensures |Output(segs)| <= |Text(segs)|
    ensures (exists seg :: seg in segs && IsComment(seg)) ==> |Output(segs)| < |Text(segs)|
  {
    if segs != [] {
      OutputLength(segs[1..]);
      RenderedLength(segs[0], Text(segs[1..]));
      assert forall seg :: seg in segs ==> seg == segs[0] || seg in segs[1..];
    }
  }

  /** Stripping twice is stripping once, and only a comment is ever changed. */
  lemma StrippingSettles(s: string)
    ensures Stripped(Stripped(s)) == Stripped(s)
    ensures Stripped(s) == s <==> forall seg :: seg in Lex(s) ==> !IsComment(seg)
  {
    OutputHasNoComments(s);
    WithoutComments(Lex(Stripped(s)));
    LexIsASegmentation(Stripped(s));
    LexIsASegmentation(s);
    OutputLength(Lex(s));
    if forall seg :: seg in Lex(s) ==> !IsComment(seg) {
      WithoutComments(Lex(s));
    }
  }

  // ----- line structure

  /** The text ends inside a line comment. */
  predicate EndsInLine(segs: seq<Segment>) {
    segs != []
    && var last := segs[|segs| - 1];
       last.Line? && last.text != "" && last.text[|last.text| - 1] != '\n'
  }

  lemma {:induction false} NewlinesBreak(n: nat)
    ensures Breaks(Newlines(n)) == n
  {
    if n > 0 {
      assert Newlines(n)[1..] == Newlines(n - 1);
      NewlinesBreak(n - 1);
    }
  }

  lemma {:induction false} NoBreaks(t: string)
    requires forall i :: 0 <= i < |t| ==> t[i] != '\n'
    ensures Breaks(t) == 0
  {
    if t != "" {
      NoBreaks(t[1..]);
    }
  }

  lemma LineBreaks(t: string, rest: string)
    requires Fits(Line(t), rest)
    ensures Breaks(t) == if t[|t| - 1] == '\n' then 1 else 0
  {
    var body, last := t[..|t| - 1], t[|t| - 1..];
    assert t == body + last;
    BreaksAppend(body, last);
    NoBreaks(body);
    assert last[1..] == "";
  }

  lemma RenderedBreaks(seg: Segment, rest: string)
    requires Fits(seg, rest)
    ensures Breaks(Rendered(seg)) == Breaks(Spelling(seg)) + if EndsInLine([seg]) then 1 else 0
  {
    match seg
    case Code(_) =>
    case Literal(_) =>
    case Line(t) =>
      LineBreaks(t, rest);
      NewlinesBreak(1);
      assert Newlines(1) == "\n";
    case Block(t) =>
      NewlinesBreak(Breaks(t));
  }

  lemma {:induction false} OutputBreaks(segs: seq<Segment>)
    requires Lexed(segs)
    ensures Breaks(Output(segs)) == Breaks(Text(segs)) + if EndsInLine(segs) then 1 else 0
  {
    if segs != [] {
      var rest := segs[1..];
      OutputBreaks(rest);
      RenderedBreaks(segs[0], Text(rest));
      BreaksAppend(Rendered(segs[0]), Output(rest));
      BreaksAppend(Spelling(segs[0]), Text(rest));
      if rest != [] {
        SpelledHead(rest);
        assert segs[|segs| - 1] == rest[|rest| - 1];
      }
    }
  }

  /** Line numbers survive, but for one newline added after an unended `//`. */
  lemma LinesAreKept(s: string)
    ensures Breaks(Stripped(s)) == Breaks(s) + if EndsInLine(Lex(s)) then 1 else 0
  {
    LexIsASegmentation(s);
    OutputBreaks(Lex(s));
  }

  /** Every other account of the text by the same rules renders the same. */
  lemma RenderingIsDetermined(segs: seq<Segment>)
    requires Lexed(segs)
    ensures Stripped(Text(segs)) == Output(segs)
  {
    SegmentationIsUnique(segs);
  }

  lemma {:induction false} OutputAppend(a: seq<Segment>, b: seq<Segment>)
    ensures Output(a + b) == Output(a) + Output(b)
  {
    if a == [] {
      assert a + b == b;
    } else {
      assert (a + b)[1..] == a[1..] + b;
      OutputAppend(a[1..], b);
    }
  }

  lemma OutputAround(a: seq<Segment>, t: string, b: seq<Segment>)
    requires Breaks(t) == 0
    ensures Output(a + [Block(t)] + b) == Output(a) + Output(b)
  {
    OutputAppend(a + [Block(t)], b);
    OutputAppend(a, [Block(t)]);
    assert [Block(t)][1..] == [] && Output([Block(t)]) == "";
    assert Output(a) + "" == Output(a);
  }

  /** A block comment on one line leaves nothing: what stood on its two sides is joined. */
  lemma BlockCommentsJoinTokens(a: seq<Segment>, t: string, b: seq<Segment>)
    requires Lexed(a + [Block(t)] + b) && Breaks(t) == 0
    ensures Stripped(Text(a + [Block(t)] + b)) == Output(a) + Output(b)
  {
    RenderingIsDetermined(a + [Block(t)] + b);
    OutputAround(a, t, b);
  }

  /** So "1", a comment and "2" become the one token "12". */
  lemma TwoDigitsBecomeOneNumber()
    ensures Stripped("1/**/2") == "12"
  {
    var last := [Code('2')];
    var joined := [Block("/**/")] + last;
    var segs := [Code('1')] + joined;
    assert last[1..] == [] && joined[1..] == last && segs[1..] == joined;
    assert StarSlashAt("/**/", 2);
    NoBreaks("/**/");
    assert Text(last) == "2" == Output(last);
    assert Text(joined) == "/**/2";
    assert Text(segs) == "1/**/2" && segs == [Code('1')] + [Block("/**/")] + last;
    assert [Code('1')][1..] == [] && Output([Code('1')]) == "1";
    BlockCommentsJoinTokens([Code('1')], "/**/", last);
  }
}
