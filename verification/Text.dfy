// Strings as the operator uses them: trimming, prefixes, joining, decimal
// rendering, and the order `sort.Strings` sorts by.
module Text {

  // Unicode White_Space, which is what Go's strings.TrimSpace trims.
  predicate IsSpace(c: char) {
    || '\t' <= c <= '\r'
    || c == ' ' || c == '\U{0085}' || c == '\U{00A0}' || c == '\U{1680}'
    || '\U{2000}' <= c <= '\U{200A}'
    || c == '\U{2028}' || c == '\U{2029}' || c == '\U{202F}' || c == '\U{205F}' || c == '\U{3000}'
  }

  function TrimLeft(s: string): string {
    if s != "" && IsSpace(s[0]) then TrimLeft(s[1..]) else s
  }

  function TrimRight(s: string): string {
    if s != "" && IsSpace(s[|s| - 1]) then TrimRight(s[..|s| - 1]) else s
  }

  function TrimSpace(s: string): string {
    TrimRight(TrimLeft(s))
  }

  lemma {:induction false} TrimLeftShape(s: string) returns (before: string)
    ensures s == before + TrimLeft(s) && Blank(before)
    ensures TrimLeft(s) == "" || !IsSpace(TrimLeft(s)[0])
  {
    before := "";
    if s != "" && IsSpace(s[0]) {
      before := TrimLeftShape(s[1..]);
      before := [s[0]] + before;
    }
  }

  lemma {:induction false} TrimRightShape(s: string) returns (after: string)
    ensures s == TrimRight(s) + after && Blank(after)
    ensures TrimRight(s) == "" || !IsSpace(TrimRight(s)[|TrimRight(s)| - 1])
  {
    after := "";
    if s != "" && IsSpace(s[|s| - 1]) {
      after := TrimRightShape(s[..|s| - 1]);
      after := after + [s[|s| - 1]];
    }
  }

  // The 25 code points of White_Space.
  const WHITE_SPACE: string :=
    "\t\U{0A}\U{0B}\U{0C}\r \U{85}\U{A0}\U{1680}\U{2000}\U{2001}\U{2002}\U{2003}\U{2004}\U{2005}\U{2006}"
    + "\U{2007}\U{2008}\U{2009}\U{200A}\U{2028}\U{2029}\U{202F}\U{205F}\U{3000}"

  lemma IsSpaceExactly(c: char)
    ensures IsSpace(c) <==> c in WHITE_SPACE
  {
    var here := WHITE_SPACE;
    assert |here| == 25;
    assert here[0] == '\t' && here[1] == '\U{0A}' && here[2] == '\U{0B}' && here[3] == '\U{0C}' && here[4] == '\r';
    assert here[5] == ' ' && here[6] == '\U{85}' && here[7] == '\U{A0}' && here[8] == '\U{1680}';
    assert here[9] == '\U{2000}' && here[10] == '\U{2001}' && here[11] == '\U{2002}' && here[12] == '\U{2003}';
    assert here[13] == '\U{2004}' && here[14] == '\U{2005}' && here[15] == '\U{2006}' && here[16] == '\U{2007}';
    assert here[17] == '\U{2008}' && here[18] == '\U{2009}' && here[19] == '\U{200A}' && here[20] == '\U{2028}';
    assert here[21] == '\U{2029}' && here[22] == '\U{202F}' && here[23] == '\U{205F}' && here[24] == '\U{3000}';
  }

  predicate Blank(s: string) {
    forall i :: 0 <= i < |s| ==> IsSpace(s[i])
  }

  // Neither end is white space.
  predicate Tight(s: string) {
    s == "" || (!IsSpace(s[0]) && !IsSpace(s[|s| - 1]))
  }

  // Trimming takes white space off both ends, and all of it.
  lemma TrimSpaceTrims(s: string) returns (before: string, after: string)
    ensures s == before + TrimSpace(s) + after
    ensures Blank(before) && Blank(after) && Tight(TrimSpace(s))
  {
    before := TrimLeftShape(s);
    after := TrimRightShape(TrimLeft(s));
  }

  // So it changes nothing exactly on a string that is tight, and leaves nothing
  // exactly of one that is blank.
  lemma TrimmedExactly(s: string)
    ensures TrimSpace(s) == s <==> Tight(s)
    ensures TrimSpace(s) == "" <==> Blank(s)
  {
    var before, after := TrimSpaceTrims(s);
    var trimmed := TrimSpace(s);
    if before != "" {
      assert s[0] == before[0];
    }
    if after != "" {
      assert s[|s| - 1] == after[|after| - 1];
    }
    if trimmed != "" {
      assert s[|before|] == trimmed[0];
    }
    if trimmed == "" {
      assert s == before + after;
    }
  }

  lemma TrimSpaceIdempotent(s: string)
    ensures TrimSpace(TrimSpace(s)) == TrimSpace(s)
  {
    var before, after := TrimSpaceTrims(s);
    TrimmedExactly(TrimSpace(s));
  }

  function TrimPrefix(s: string, prefix: string): string {
    if prefix <= s then s[|prefix|..] else s
  }

  function Join(parts: seq<string>, separator: string): string {
    if |parts| == 0 then ""
    else if |parts| == 1 then parts[0]
    else parts[0] + separator + Join(parts[1..], separator)
  }

  function Decimal(n: nat): string {
    var digits := "0123456789";
    if n < 10 then [digits[n]] else Decimal(n / 10) + [digits[n % 10]]
  }

  // Joined strings stand in their order with a separator between any two.
  lemma {:induction false} JoinConcat(a: seq<string>, b: seq<string>, separator: string)
    requires a != [] && b != []
    ensures Join(a + b, separator) == Join(a, separator) + separator + Join(b, separator)
  {
    assert (a + b)[0] == a[0] && (a + b)[1..] == a[1..] + b;
    if |a| > 1 {
      JoinConcat(a[1..], b, separator);
    }
  }

  function Value(digits: string): int {
    if digits == "" then 0
    else 10 * Value(digits[..|digits| - 1]) + (digits[|digits| - 1] as int - '0' as int)
  }

  // Digits that read as the number, without leading zeros.
  lemma {:induction false} DecimalReads(n: nat)
    ensures Value(Decimal(n)) == n && Decimal(n) != "" && (Decimal(n)[0] == '0' ==> n == 0)
    ensures forall c :: c in Decimal(n) ==> '0' <= c <= '9'
  {
    if n >= 10 {
      DecimalReads(n / 10);
      assert Decimal(n)[..|Decimal(n)| - 1] == Decimal(n / 10);
    }
  }

  // ---- The order of sort.Strings ----

  predicate Before(a: string, b: string) {
    if a == "" then true
    else if b == "" then false
    else if a[0] == b[0] then Before(a[1..], b[1..])
    else a[0] < b[0]
  }

  lemma {:induction false} BeforeTotal(a: string, b: string)
    ensures Before(a, b) || Before(b, a)
  {
    if a != "" && b != "" && a[0] == b[0] {
      BeforeTotal(a[1..], b[1..]);
    }
  }

  lemma {:induction false} BeforeAntisymmetric(a: string, b: string)
    requires Before(a, b) && Before(b, a)
    ensures a == b
  {
    if a != "" && b != "" {
      BeforeAntisymmetric(a[1..], b[1..]);
      assert a == [a[0]] + a[1..] && b == [b[0]] + b[1..];
    }
  }

  lemma {:induction false} BeforeTransitive(a: string, b: string, c: string)
    requires Before(a, b) && Before(b, c)
    ensures Before(a, c)
  {
    if a != "" && a[0] == b[0] && b[0] == c[0] {
      BeforeTransitive(a[1..], b[1..], c[1..]);
    }
  }

  // The order is lexicographic: a prefix comes first, and otherwise the smaller
  // character at the first difference does.
  lemma {:induction false} BeforeIsLexicographic(a: string, b: string)
    ensures Before(a, b) <==> a <= b || exists i :: SmallerAt(a, b, i)
  {
    if a != "" && b != "" && a[0] == b[0] {
      BeforeIsLexicographic(a[1..], b[1..]);
      assert a <= b <==> a[1..] <= b[1..] by {
        assert a == [a[0]] + a[1..] && b == [b[0]] + b[1..];
      }
      if i :| SmallerAt(a[1..], b[1..], i) {
        assert a[..i + 1] == [a[0]] + a[1..][..i] && b[..i + 1] == [b[0]] + b[1..][..i];
        assert SmallerAt(a, b, i + 1);
      }
      if i :| SmallerAt(a, b, i) {
        assert i > 0;
        assert a[1..][..i - 1] == a[..i][1..] && b[1..][..i - 1] == b[..i][1..];
        assert SmallerAt(a[1..], b[1..], i - 1);
      }
    } else if a != "" && b != "" {
      assert SmallerAt(a, b, 0) <==> a[0] < b[0];
      if i :| SmallerAt(a, b, i) && i > 0 {
        assert a[..i][0] == b[..i][0];
      }
    }
  }

  predicate SmallerAt(a: string, b: string, i: int) {
    0 <= i < |a| && i < |b| && a[..i] == b[..i] && a[i] < b[i]
  }

  predicate Sorted(s: seq<string>) {
    forall i, j :: 0 <= i < j < |s| ==> Before(s[i], s[j])
  }

  function Insert(x: string, s: seq<string>): seq<string> {
    if s == [] || Before(x, s[0]) then [x] + s else [s[0]] + Insert(x, s[1..])
  }

  function SortStrings(s: seq<string>): seq<string> {
    if s == [] then [] else Insert(s[0], SortStrings(s[1..]))
  }

  lemma {:induction false} InsertSorts(x: string, s: seq<string>)
    requires Sorted(s)
    ensures Sorted(Insert(x, s)) && multiset(Insert(x, s)) == multiset{x} + multiset(s)
  {
    if s == [] {
    } else if Before(x, s[0]) {
      forall j | 0 < j < |s| ensures Before(x, s[j]) {
        BeforeTransitive(x, s[0], s[j]);
      }
    } else {
      BeforeTotal(x, s[0]);
      assert s == [s[0]] + s[1..];
      InsertSorts(x, s[1..]);
      var r := Insert(x, s[1..]);
      forall j | 0 <= j < |r| ensures Before(s[0], r[j]) {
        assert r[j] in multiset(r);
        if r[j] != x {
          assert r[j] in multiset(s[1..]);
          assert r[j] in s[1..];
        }
      }
    }
  }

  // sort.Strings: a sorted permutation of its input.
  lemma {:induction false} SortStringsSorts(s: seq<string>)
    ensures Sorted(SortStrings(s)) && multiset(SortStrings(s)) == multiset(s)
    ensures |SortStrings(s)| == |s|
  {
    if s != [] {
      SortStringsSorts(s[1..]);
      InsertSorts(s[0], SortStrings(s[1..]));
      assert s == [s[0]] + s[1..];
    }
    assert |multiset(SortStrings(s))| == |multiset(s)|;
  }

  // The first element of a sorted sequence comes before everything in it.
  lemma SortedHead(s: seq<string>, x: string)
    requires Sorted(s) && x in s
    ensures Before(s[0], x)
  {
    BeforeTotal(x, x);
    var i :| 0 <= i < |s| && s[i] == x;
  }

  lemma TailMultiset(s: seq<string>)
    requires s != []
    ensures multiset(s[1..]) == multiset(s) - multiset{s[0]}
  {
    assert s == [s[0]] + s[1..];
  }

  lemma SameHead(a: seq<string>, b: seq<string>)
    requires Sorted(a) && Sorted(b) && multiset(a) == multiset(b) && a != [] && b != []
    ensures a[0] == b[0]
  {
    assert a[0] in multiset(b) && b[0] in multiset(a);
    SortedHead(a, b[0]);
    SortedHead(b, a[0]);
    BeforeAntisymmetric(a[0], b[0]);
  }

  // A multiset has only one sorted arrangement.
  lemma {:induction false} SortedUnique(a: seq<string>, b: seq<string>)
    requires Sorted(a) && Sorted(b) && multiset(a) == multiset(b)
    ensures a == b
  {
    assert |a| == |multiset(a)| == |multiset(b)| == |b|;
    if a != [] {
      SameHead(a, b);
      TailMultiset(a);
      TailMultiset(b);
      SortedUnique(a[1..], b[1..]);
    }
  }

  // Sorting forgets the order its input came in.
  lemma SortCanonical(a: seq<string>, b: seq<string>)
    requires multiset(a) == multiset(b)
    ensures SortStrings(a) == SortStrings(b)
  {
    SortStringsSorts(a);
    SortStringsSorts(b);
    SortedUnique(SortStrings(a), SortStrings(b));
  }
}
