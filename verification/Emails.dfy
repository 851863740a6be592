/** The allow list of internal/config: how its string is parsed and how it is consulted. */
module Emails {

  /** `unicode.IsSpace`, which `strings.TrimSpace` uses. */
  predicate IsSpace(c: char) {
    || '\t' <= c <= '\r' || c == ' ' || c == '\U{0085}' || c == '\U{00A0}' || c == '\U{1680}'
    || '\U{2000}' <= c <= '\U{200A}' || c == '\U{2028}' || c == '\U{2029}' || c == '\U{202F}'
    || c == '\U{205F}' || c == '\U{3000}'
  }

  /** `strings.ToLower`, character by character; `lower` stands for Unicode's table. */
  function ToLower(lower: char -> char, s: string): (r: string)
    ensures |r| == |s|
  {
    seq(|s|, i requires 0 <= i < |s| => lower(s[i]))
  }

  /** `strings.Split(s, ",")`: always at least one field. */
  function Split(s: string): (fields: seq<string>)
    ensures |fields| >= 1
  {
    if s == "" then [""]
    else
      var rest := Split(s[1..]);
      if s[0] == ',' then [""] + rest else [[s[0]] + rest[0]] + rest[1..]
  }

  function JoinWithCommas(fields: seq<string>): string
    requires |fields| >= 1
  {
    if |fields| == 1 then fields[0] else fields[0] + "," + JoinWithCommas(fields[1..])
  }

  /** Splitting loses nothing, and no field holds a comma. */
  lemma {:induction false} SplitIsInverseOfJoin(s: string)
    ensures JoinWithCommas(Split(s)) == s
    ensures forall k :: 0 <= k < |Split(s)| ==> ',' !in Split(s)[k]
  {
    if s != "" {
      SplitIsInverseOfJoin(s[1..]);
      var rest := Split(s[1..]);
      if s[0] == ',' {
        assert Split(s)[1..] == rest;
        assert s == "," + s[1..];
      } else {
        assert Split(s)[0] == [s[0]] + rest[0] && Split(s)[1..] == rest[1..];
        assert s == [s[0]] + s[1..];
        if |rest| == 1 {
        } else {
          assert JoinWithCommas(Split(s)) == [s[0]] + (rest[0] + "," + JoinWithCommas(rest[1..]));
        }
      }
    }
  }

  function TrimLeft(s: string): string {
    if s != "" && IsSpace(s[0]) then TrimLeft(s[1..]) else s
  }

  function TrimRight(s: string): string {
    if s != "" && IsSpace(s[|s| - 1]) then TrimRight(s[..|s| - 1]) else s
  }

  function TrimSpace(s: string): string {
    TrimRight(TrimLeft(s))
  }

  /** What `parseEmails` keeps of the fields: trimmed, lower-cased, the empty ones dropped. */
  function Entries(lower: char -> char, fields: seq<string>): seq<string> {
    if fields == [] then []
    else
      var n := |fields| - 1;
      var trimmed := TrimSpace(fields[n]);
      Entries(lower, fields[..n]) + if trimmed != "" then [ToLower(lower, trimmed)] else []
  }

  method ParseEmails(lower: char -> char, s: string) returns (result: seq<string>)
    ensures result == Entries(lower, Split(s))
    ensures forall email :: ToLower(lower, email) in result <==> Lists(lower, s, email)
  {
    forall email
      ensures ToLower(lower, email) in Entries(lower, Split(s)) <==> Lists(lower, s, email)
    {
      AllowListMeansListed(lower, s, email);
    }
    var emails := Split(s);
    result := [];
    for i := 0 to |emails|
      invariant result == Entries(lower, emails[..i])
    {
      assert emails[..i + 1][..i] == emails[..i];
      var trimmed := TrimSpace(emails[i]);
      if trimmed != "" {
        result := result + [ToLower(lower, trimmed)];
      }
    }
    assert emails[..|emails|] == emails;
  }

  method ScanAllowed(lower: char -> char, allowedEmails: seq<string>, email: string) returns (allowed: bool)
    ensures allowed <==> ToLower(lower, email) in allowedEmails
  {
    var wanted := ToLower(lower, email);
    for i := 0 to |allowedEmails|
      invariant wanted !in allowedEmails[..i]
    {
      if allowedEmails[i] == wanted {
        return true;
      }
    }
    return false;
  }

  /** The rule as the operator reads it: some non-blank field of the list is this e-mail, up to case. */
  ghost predicate NamedIn(lower: char -> char, allowList: string, email: string) {
    exists k :: 0 <= k < |Split(allowList)| && IsEntryFor(lower, Split(allowList)[k], email)
  }

  predicate IsEntryFor(lower: char -> char, field: string, email: string) {
    TrimSpace(field) != "" && ToLower(lower, TrimSpace(field)) == ToLower(lower, email)
  }

  lemma {:induction false} EntriesAreTheFields(lower: char -> char, fields: seq<string>, email: string)
    ensures ToLower(lower, email) in Entries(lower, fields) <==>
              exists k :: 0 <= k < |fields| && IsEntryFor(lower, fields[k], email)
  {
    if fields != [] {
      var n := |fields| - 1;
      EntriesAreTheFields(lower, fields[..n], email);
      if ToLower(lower, email) in Entries(lower, fields[..n]) {
        var k :| 0 <= k < n && IsEntryFor(lower, fields[..n][k], email);
        assert IsEntryFor(lower, fields[k], email);
      }
      assert forall k :: 0 <= k < n ==> fields[..n][k] == fields[k];
    }
  }

  /** Parsing and scanning together decide exactly that rule, for every string and every e-mail. */
  lemma AllowListMeansNamed(lower: char -> char, allowList: string, email: string)
    ensures ToLower(lower, email) in Entries(lower, Split(allowList)) <==> NamedIn(lower, allowList, email)
  {
    EntriesAreTheFields(lower, Split(allowList), email);
  }

  /** An empty e-mail is never allowed, whatever the list. */
  lemma EmptyIsNeverAllowed(lower: char -> char, allowList: string)
    ensures !NamedIn(lower, allowList, "")
  {
    forall k | 0 <= k < |Split(allowList)|
      ensures !IsEntryFor(lower, Split(allowList)[k], "")
    {
      assert |ToLower(lower, TrimSpace(Split(allowList)[k]))| == |TrimSpace(Split(allowList)[k])|;
    }
  }

  lemma {:induction false} TrimLeftIs(s: string) returns (left: string)
    ensures s == left + TrimLeft(s) && forall i :: 0 <= i < |left| ==> IsSpace(left[i])
    ensures TrimLeft(s) != "" ==> !IsSpace(TrimLeft(s)[0])
  {
    left := "";
    if s != "" && IsSpace(s[0]) {
      var rest := TrimLeftIs(s[1..]);
      left := [s[0]] + rest;
      assert s == [s[0]] + s[1..];
    }
  }

  lemma {:induction false} TrimRightIs(s: string) returns (right: string)
    ensures s == TrimRight(s) + right && forall i :: 0 <= i < |right| ==> IsSpace(right[i])
    ensures TrimRight(s) != "" ==> !IsSpace(TrimRight(s)[|TrimRight(s)| - 1])
    decreases |s|
  {
    right := "";
    if s != "" && IsSpace(s[|s| - 1]) {
      var n := |s| - 1;
      var rest := TrimRightIs(s[..n]);
      right := rest + [s[n]];
      assert s == s[..n] + [s[n]];
    }
  }

  /** Trimming removes exactly the surrounding white space. */
  lemma TrimSpaceIsCore(s: string) returns (left: string, right: string)
    ensures s == left + TrimSpace(s) + right
    ensures (forall i :: 0 <= i < |left| ==> IsSpace(left[i])) && (forall i :: 0 <= i < |right| ==> IsSpace(right[i]))
    ensures TrimSpace(s) != "" ==> !IsSpace(TrimSpace(s)[0]) && !IsSpace(TrimSpace(s)[|TrimSpace(s)| - 1])
  {
    left := TrimLeftIs(s);
    right := TrimRightIs(TrimLeft(s));
    assert TrimLeft(s) == TrimSpace(s) + right;
  }

  // ----- the list in the operator's terms

  /** The white space of Unicode, written out. */
  const BLANKS: set<char> :=
    {'\t', '\n', '\U{000B}', '\U{000C}', '\r', ' ', '\U{0085}', '\U{00A0}', '\U{1680}',
     '\U{2000}', '\U{2001}', '\U{2002}', '\U{2003}', '\U{2004}', '\U{2005}', '\U{2006}',
     '\U{2007}', '\U{2008}', '\U{2009}', '\U{200A}', '\U{2028}', '\U{2029}', '\U{202F}',
     '\U{205F}', '\U{3000}'}

  lemma SpacesAre(c: char)
    ensures IsSpace(c) <==> c in BLANKS
  {
    assert '\t' <= c <= '\r' ==> c as int == 9 || c as int == 10 || c as int == 11 || c as int == 12 || c as int == 13;
    assert '\U{2000}' <= c <= '\U{200A}' ==> 0x2000 <= c as int <= 0x200A;
  }

  /** A character is trimmed away exactly when Unicode calls it white space. */
  lemma WhiteSpaceIs(c: char)
    ensures TrimSpace([c]) == "" <==>
              c in {'\t', '\n', '\U{000B}', '\U{000C}', '\r', ' ', '\U{0085}', '\U{00A0}', '\U{1680}',
                    '\U{2000}', '\U{2001}', '\U{2002}', '\U{2003}', '\U{2004}', '\U{2005}', '\U{2006}',
                    '\U{2007}', '\U{2008}', '\U{2009}', '\U{200A}', '\U{2028}', '\U{2029}', '\U{202F}',
                    '\U{205F}', '\U{3000}'}
  {
    SpacesAre(c);
    assert [c][1..] == "" && [c][..0] == "" && TrimLeft("") == "" && TrimRight("") == "";
    assert TrimSpace([c]) == "" <==> IsSpace(c);
  }

  /** `f` stands between two commas or ends of the list, with white space around it. */
  ghost predicate Stands(allowList: string, before: string, p: string, f: string, q: string, after: string) {
    && allowList == before + p + f + q + after
    && (before == "" || before[|before| - 1] == ',') && (after == "" || after[0] == ',')
    && f != "" && ',' !in f && !IsSpace(f[0]) && !IsSpace(f[|f| - 1])
    && (forall i :: 0 <= i < |p| ==> IsSpace(p[i])) && (forall i :: 0 <= i < |q| ==> IsSpace(q[i]))
  }

  ghost predicate SameUpToCase(lower: char -> char, a: string, b: string) {
    |a| == |b| && forall i :: 0 <= i < |a| ==> lower(a[i]) == lower(b[i])
  }

  /** Some field of the list is the e-mail, up to case. */
  ghost predicate Lists(lower: char -> char, allowList: string, email: string) {
    exists before, p, f, q, after ::
      Stands(allowList, before, p, f, q, after) && SameUpToCase(lower, f, email)
  }

  lemma SameLowered(lower: char -> char, a: string, b: string)
    ensures ToLower(lower, a) == ToLower(lower, b) <==> SameUpToCase(lower, a, b)
  {
    if ToLower(lower, a) == ToLower(lower, b) {
      assert forall i :: 0 <= i < |a| ==> ToLower(lower, a)[i] == lower(a[i]) && ToLower(lower, b)[i] == lower(b[i]);
    }
  }

  /** A field stands between two commas or ends. */
  lemma {:induction false} FieldIsBetweenCommas(s: string, k: nat) returns (before: string, after: string)
    requires k < |Split(s)|
    ensures s == before + Split(s)[k] + after && (k == 0 <==> before == "")
    ensures (before == "" || before[|before| - 1] == ',') && (after == "" || after[0] == ',')
  {
    if s == "" {
      before, after := "", "";
    } else if s[0] == ',' && k == 0 {
      before, after := "", s;
    } else if s[0] == ',' {
      before, after := FieldIsBetweenCommas(s[1..], k - 1);
      before := "," + before;
      assert s == "," + s[1..];
    } else {
      before, after := FieldIsBetweenCommas(s[1..], k);
      assert s == [s[0]] + s[1..];
      if k > 0 { before := [s[0]] + before; }
    }
  }

  lemma SplitStep(c: char, t: string, s: string)
    requires s == [c] + t
    ensures Split(s) == Ahead(c, Split(t))
  {
    assert s[1..] == t;
  }

  /** One more character in front of the fields. */
  function Ahead(c: char, fields: seq<string>): seq<string>
    requires |fields| >= 1
  {
    if c == ',' then [""] + fields else [[c] + fields[0]] + fields[1..]
  }

  lemma AheadAppend(c: char, x: seq<string>, y: seq<string>)
    requires |x| >= 1
    ensures Ahead(c, x + y) == Ahead(c, x) + y
  {
  }

  lemma {:induction false} SplitAppend(a: string, b: string)
    ensures Split(a + "," + b) == Split(a) + Split(b)
  {
    if a == "" {
      SplitStep(',', b, a + "," + b);
    } else {
      SplitAppend(a[1..], b);
      SplitStep(a[0], a[1..] + "," + b, a + "," + b);
      SplitStep(a[0], a[1..], a);
      AheadAppend(a[0], Split(a[1..]), Split(b));
    }
  }

  lemma {:induction false} NoCommaIsOneField(g: string)
    requires ',' !in g
    ensures Split(g) == [g]
  {
    if g != "" {
      NoCommaIsOneField(g[1..]);
      assert g == [g[0]] + g[1..];
    }
  }

  /** And what stands so is a field. */
  lemma BetweenCommasIsAField(before: string, g: string, after: string) returns (k: nat)
    requires ',' !in g
    requires (before == "" || before[|before| - 1] == ',') && (after == "" || after[0] == ',')
    ensures k < |Split(before + g + after)| && Split(before + g + after)[k] == g
  {
    FieldFirst(g, after);
    if before == "" {
      assert before + g + after == g + after;
      k := 0;
    } else {
      var b := before[..|before| - 1];
      SplitAppend(b, g + after);
      assert before == b + ",";
      assert before + g + after == b + "," + (g + after);
      k := |Split(b)|;
    }
  }

  lemma FieldFirst(g: string, after: string)
    requires ',' !in g && (after == "" || after[0] == ',')
    ensures Split(g + after)[0] == g
  {
    NoCommaIsOneField(g);
    if after == "" {
      assert g + after == g;
    } else {
      SplitAppend(g, after[1..]);
      assert g + after == g + "," + after[1..];
    }
  }

  /** Trimming leaves what stands between white space. */
  lemma {:induction false} TrimSpaceFinds(p: string, f: string, q: string)
    requires (forall i :: 0 <= i < |p| ==> IsSpace(p[i])) && (forall i :: 0 <= i < |q| ==> IsSpace(q[i]))
    requires f != "" && !IsSpace(f[0]) && !IsSpace(f[|f| - 1])
    ensures TrimSpace(p + f + q) == f
    decreases |p| + |q|
  {
    var s := p + f + q;
    if p != "" {
      TrimSpaceFinds(p[1..], f, q);
      assert s[1..] == p[1..] + f + q;
    } else if q != "" {
      var q1 := q[..|q| - 1];
      TrimSpaceFinds(p, f, q1);
      assert s[..|s| - 1] == p + f + q1;
      assert TrimLeft(p + f + q1) == p + f + q1;
    } else {
      assert s == f;
    }
  }

  /** Parsing and scanning accept an e-mail exactly when the list lists it. */
  lemma AllowListMeansListed(lower: char -> char, allowList: string, email: string)
    ensures ToLower(lower, email) in Entries(lower, Split(allowList)) <==> Lists(lower, allowList, email)
  {
    AllowListMeansNamed(lower, allowList, email);
    if NamedIn(lower, allowList, email) {
      var k :| 0 <= k < |Split(allowList)| && IsEntryFor(lower, Split(allowList)[k], email);
      NamedIsListed(lower, allowList, email, k);
    }
    if Lists(lower, allowList, email) {
      var before, p, f, q, after :| Stands(allowList, before, p, f, q, after) && SameUpToCase(lower, f, email);
      ListedIsNamed(lower, allowList, email, before, p, f, q, after);
    }
  }

  lemma Regroup(before: string, p: string, f: string, q: string, after: string)
    ensures before + (p + f + q) + after == before + p + f + q + after
  {
  }

  lemma PartsOf(field: string, p: string, f: string, q: string, c: char)
    requires field == p + f + q && c !in field
    ensures c !in f
  {
    forall i | 0 <= i < |f|
      ensures f[i] != c
    {
      assert field[|p| + i] == f[i];
    }
  }

  lemma NamedIsListed(lower: char -> char, allowList: string, email: string, k: nat)
    requires k < |Split(allowList)| && IsEntryFor(lower, Split(allowList)[k], email)
    ensures Lists(lower, allowList, email)
  {
    var field := Split(allowList)[k];
    var f := TrimSpace(field);
    SplitIsInverseOfJoin(allowList);
    var before, after := FieldIsBetweenCommas(allowList, k);
    var p, q := TrimSpaceIsCore(field);
    StandsWhere(lower, allowList, field, before, p, f, q, after, email);
  }

  lemma StandsWhere(lower: char -> char, allowList: string, field: string, before: string, p: string, f: string,
                    q: string, after: string, email: string)
    requires allowList == before + field + after && field == p + f + q && ',' !in field
    requires (before == "" || before[|before| - 1] == ',') && (after == "" || after[0] == ',')
    requires f != "" && !IsSpace(f[0]) && !IsSpace(f[|f| - 1]) && ToLower(lower, f) == ToLower(lower, email)
    requires (forall i :: 0 <= i < |p| ==> IsSpace(p[i])) && (forall i :: 0 <= i < |q| ==> IsSpace(q[i]))
    ensures Lists(lower, allowList, email)
  {
    PartsOf(field, p, f, q, ',');
    Regroup(before, p, f, q, after);
    SameLowered(lower, f, email);
    assert Stands(allowList, before, p, f, q, after);
  }

  lemma ListedIsNamed(lower: char -> char, allowList: string, email: string, before: string, p: string, f: string,
                      q: string, after: string)
    requires Stands(allowList, before, p, f, q, after) && SameUpToCase(lower, f, email)
    ensures NamedIn(lower, allowList, email)
  {
    var field := p + f + q;
    TrimSpaceFinds(p, f, q);
    assert !IsSpace(',');
    Regroup(before, p, f, q, after);
    var k := BetweenCommasIsAField(before, field, after);
    SameLowered(lower, f, email);
    assert IsEntryFor(lower, Split(allowList)[k], email);
  }

  /** So a second field is found behind its comma, whatever blanks surround it. */
  lemma SecondFieldIsListed(lower: char -> char, e: string, p: string, f: string, q: string)
    requires f != "" && ',' !in f && f[0] !in BLANKS && f[|f| - 1] !in BLANKS
    requires forall c :: c in p || c in q ==> c in {' ', '\t', '\n', '\U{000B}', '\U{000C}', '\r'}
    ensures ToLower(lower, f) in Entries(lower, Split(e + "," + p + f + q))
  {
    var allowList := e + "," + p + f + q;
    assert allowList == (e + ",") + p + f + q + "";
    SpacesAre(f[0]);
    SpacesAre(f[|f| - 1]);
    forall c | c in p || c in q
      ensures IsSpace(c)
    {
      assert c in BLANKS;
      SpacesAre(c);
    }
    assert Stands(allowList, e + ",", p, f, q, "") && SameUpToCase(lower, f, f);
    AllowListMeansListed(lower, allowList, f);
  }
}
