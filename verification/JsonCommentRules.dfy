/**
 * What the comment stripper does with each kind of text, mark by mark: the rules a reader of
 * the configuration file goes by, with the quotes and the comment marks written out.
 */
module JsonCommentRules {
  import opened JsonComments

  lemma FirstThenStripped(s: string, head: string, rest: string)
    requires s != "" && s == head + rest && Spelling(First(s)) == head
    ensures Stripped(s) == Rendered(First(s)) + Stripped(rest)
  {
    assert s[|head|..] == rest;
    assert Lex(s)[1..] == Lex(rest);
  }

  // ----- code

  /** A character that opens nothing is kept. */
  lemma OtherCharactersAreKept(c: char, rest: string)
    requires c != '"' && c != '\'' && c != '/'
    ensures Stripped([c] + rest) == [c] + Stripped(rest)
  {
    FirstThenStripped([c] + rest, [c], rest);
  }

  /** So is a slash that starts no comment. */
  lemma LoneSlashIsKept(rest: string)
    requires rest == "" || (rest[0] != '/' && rest[0] != '*')
    ensures Stripped("/" + rest) == "/" + Stripped(rest)
  {
    FirstThenStripped("/" + rest, "/", rest);
  }

  // ----- line comments

  lemma {:induction false} LineEnds(c: string, rest: string)
    requires '\n' !in c
    ensures LineLength(c + "\n" + rest) == |c| + 1
    ensures LineLength(c) == |c|
  {
    if c != "" {
      LineEnds(c[1..], rest);
      assert (c + "\n" + rest)[1..] == c[1..] + "\n" + rest;
    }
  }

  /** A line comment leaves its newline. */
  lemma LineCommentLeavesItsNewline(c: string, rest: string)
    requires '\n' !in c
    ensures Stripped("//" + c + "\n" + rest) == "\n" + Stripped(rest)
  {
    var s := "//" + c + "\n" + rest;
    LineEnds(c, rest);
    assert s[2..] == c + "\n" + rest;
    FirstThenStripped(s, "//" + c + "\n", rest);
  }

  /** At the end of the text it leaves one too. */
  lemma LastLineCommentLeavesANewline(c: string)
    requires '\n' !in c
    ensures Stripped("//" + c) == "\n"
  {
    var s := "//" + c;
    LineEnds(c, "");
    assert s[2..] == c;
    assert s + "" == s;
    FirstThenStripped(s, s, "");
  }

  // ----- block comments

  predicate Ends(c: string, i: int) {
    0 <= i < |c| - 1 && c[i] == '*' && c[i + 1] == '/'
  }

  lemma {:induction false} BlockEnds(c: string, rest: string)
    requires forall i :: !Ends(c, i)
    ensures BlockLength(c + "*/" + rest) == |c| + 2
    ensures BlockLength(c) == |c|
  {
    if c == "" {
      assert StarSlashAt("*/" + rest, 0) && "" + "*/" + rest == "*/" + rest;
    } else {
      forall i
        ensures !Ends(c[1..], i)
      {
        assert !Ends(c, i + 1);
      }
      BlockEnds(c[1..], rest);
      assert (c + "*/" + rest)[1..] == c[1..] + "*/" + rest;
      assert !Ends(c, 0);
    }
  }

  lemma {:induction false} BreaksAreNewlines(c: string)
    ensures Breaks(c) == multiset(c)['\n']
  {
    if c != "" {
      BreaksAreNewlines(c[1..]);
      assert c == [c[0]] + c[1..];
    }
  }

  /** A block comment leaves its newlines and nothing else. */
  lemma BlockCommentLeavesItsNewlines(c: string, rest: string)
    requires forall i :: !Ends(c, i)
    ensures Stripped("/*" + c + "*/" + rest)
         == seq(multiset(c)['\n'], _ => '\n') + Stripped(rest)
  {
    var s := "/*" + c + "*/" + rest;
    BlockEnds(c, rest);
    assert s[2..] == c + "*/" + rest;
    FirstThenStripped(s, "/*" + c + "*/", rest);
    BreaksAround(c);
    BreaksAreNewlines(c);
  }

  lemma BreaksAround(c: string)
    ensures Breaks("/*" + c + "*/") == Breaks(c) && Breaks("/*" + c) == Breaks(c)
  {
    BreaksAppend("/*", c);
    BreaksAppend("/*" + c, "*/");
  }

  /** So does one that is never closed. */
  lemma OpenBlockCommentLeavesItsNewlines(c: string)
    requires forall i :: !Ends(c, i)
    ensures Stripped("/*" + c) == seq(multiset(c)['\n'], _ => '\n')
  {
    var s := "/*" + c;
    BlockEnds(c, "");
    assert s[2..] == c && s + "" == s;
    FirstThenStripped(s, s, "");
    BreaksAround(c);
    BreaksAreNewlines(c);
  }

  // ----- strings

  /** Every `q` and every backslash of the text is escaped by a backslash before it. */
  predicate IsEscaped(body: string, q: char) {
    if body == "" then true
    else if body[0] == '\\' then |body| >= 2 && IsEscaped(body[2..], q)
    else body[0] != q && IsEscaped(body[1..], q)
  }

  lemma {:induction false} StringEnds(body: string, q: char, rest: string)
    requires IsEscaped(body, q) && q != '\\'
    ensures LiteralLength(body + [q] + rest, q) == |body| + 1
    ensures LiteralLength(body, q) == |body|
    ensures LiteralLength(body + "\\", q) == |body| + 1
    decreases |body|
  {
    var s := body + [q] + rest;
    if body == "" {
      assert s == [q] + rest && body + "\\" == "\\";
    } else {
      var n := if body[0] == '\\' then 2 else 1;
      StringEnds(body[n..], q, rest);
      assert s[n..] == body[n..] + [q] + rest && (body + "\\")[n..] == body[n..] + "\\";
    }
  }

  lemma FirstString(q: char, body: string, rest: string, s: string)
    requires (q == '"' || q == '\'') && IsEscaped(body, q) && s == [q] + body + [q] + rest
    ensures First(s) == Literal([q] + body + [q])
  {
    var n := |body| + 1;
    StringEnds(body, q, rest);
    assert s[1..] == body + [q] + rest && s[0] == q;
    assert s[..1 + n] == [q] + body + [q];
  }

  /** A string in double or in single quotes is kept, whatever it holds. */
  lemma StringsAreKept(q: char, body: string, rest: string)
    requires (q == '"' || q == '\'') && IsEscaped(body, q)
    ensures Stripped([q] + body + [q] + rest) == [q] + body + [q] + Stripped(rest)
  {
    var head := [q] + body + [q];
    FirstString(q, body, rest, head + rest);
    FirstThenStripped(head + rest, head, rest);
  }

  /** So is one that the text ends before closing, in the middle of an escape too. */
  lemma OpenStringsAreKept(q: char, body: string)
    requires (q == '"' || q == '\'') && IsEscaped(body, q)
    ensures Stripped([q] + body) == [q] + body
    ensures Stripped([q] + body + "\\") == [q] + body + "\\"
  {
    StringEnds(body, q, "");
    var s, t := [q] + body, [q] + body + "\\";
    assert s[1..] == body && s + "" == s;
    assert t[1..] == body + "\\" && t + "" == t;
    FirstThenStripped(s, s, "");
    FirstThenStripped(t, t, "");
  }

  /** A string with slashes in it, and a comment behind it. */
  lemma CommentBehindAString(q: char, body: string, c: string)
    requires (q == '"' || q == '\'') && IsEscaped(body, q) && '\n' !in c
    ensures Stripped([q] + body + [q]) == [q] + body + [q]
    ensures Stripped([q] + body + [q] + " //" + c) == [q] + body + [q] + " \n"
  {
    StringsAreKept(q, body, "");
    assert [q] + body + [q] + "" == [q] + body + [q];
    SpaceAndComment(c);
    JoinedBehind([q] + body + [q], " //", c);
    StringsAreKept(q, body, " //" + c);
  }

  lemma JoinedBehind(a: string, b: string, c: string)
    ensures a + (b + c) == a + b + c
  {
  }

  lemma SpaceAndComment(c: string)
    requires '\n' !in c
    ensures Stripped(" //" + c) == " \n"
  {
    assert " //" + c == [' '] + ("//" + c);
    OtherCharactersAreKept(' ', "//" + c);
    LastLineCommentLeavesANewline(c);
  }
}
