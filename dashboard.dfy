/** `formatNumber` (static/js/dashboard.js): the text of the number with a comma
    inserted at every match of `/\B(?=(\d{3})+(?!\d))/g`. The regular
    expression is modelled position by position on the text of the number;
    the result is then shown to be the reference grouping: the digits split
    into groups of three from the right, joined by commas, after the sign. */
module Dashboard {
  import opened Text

  /** The characters `\w` matches. */
  predicate WordChar(c: char) {
    ('a' <= c <= 'z') || ('A' <= c <= 'Z') || IsDigit(c) || c == '_'
  }

  /** `\b` holds at position `i`: exactly one of the characters around it is a
      word character. */
  predicate Boundary(s: string, i: nat)
    requires i <= |s|
  {
    (i > 0 && WordChar(s[i - 1])) != (i < |s| && WordChar(s[i]))
  }

  /** The number of digits in a row from position `i`. */
  function Run(s: string, i: nat): (r: nat)
    requires i <= |s|
    ensures i + r <= |s|
    decreases |s| - i
  {
    if i < |s| && IsDigit(s[i]) then 1 + Run(s, i + 1) else 0
  }

  /** `(?=(\d{3})+(?!\d))` holds at `i`: some positive multiple of three digits
      follows, and then no digit; that is, the run of digits from `i` is a
      positive multiple of three long. */
  predicate Lookahead(s: string, i: nat)
    requires i <= |s|
  {
    Run(s, i) >= 3 && Run(s, i) % 3 == 0
  }

  /** The regular expression matches at `i`. */
  predicate CommaAt(s: string, i: nat)
    requires i <= |s|
  {
    !Boundary(s, i) && Lookahead(s, i)
  }

  /** The replacement applied to the first `j` characters: each character,
      preceded by a comma where the expression matches. (It never matches at
      the end of the text, where no digit follows.) */
  function Pieces(s: string, j: nat): (r: string)
    requires j <= |s|
  {
    if j == 0 then [] else Pieces(s, j - 1) + (if CommaAt(s, j - 1) then "," else "") + [s[j - 1]]
  }

  /** `formatNumber(num)` for an integer `num`. */
  function FormatNumber(n: int): string {
    var s := IntToString(n);
    Pieces(s, |s|)
  }

  // ----- the reference grouping -----

  /** The digits in groups of three from the right; the first group has one to
      three digits. */
  function Chunks(d: string): (r: seq<string>)
    requires d != []
    ensures |r| >= 1 && 1 <= |r[0]| <= 3
    ensures forall k :: 1 <= k < |r| ==> |r[k]| == 3
    decreases |d|
  {
    if |d| <= 3 then [d] else Chunks(d[..|d| - 3]) + [d[|d| - 3..]]
  }

  /** The concatenation of the pieces. */
  function Concat(xs: seq<string>): string {
    if xs == [] then [] else Concat(xs[..|xs| - 1]) + xs[|xs| - 1]
  }


  /** The groups make up the digits. */
  lemma {:induction false} ChunksConcat(d: string)
    requires d != []
    ensures Concat(Chunks(d)) == d
    decreases |d|
  {
    if |d| > 3 {
      var a := d[..|d| - 3];
      ChunksConcat(a);
      var c := Chunks(d);
      assert c == Chunks(a) + [d[|d| - 3..]];
      assert c[..|c| - 1] == Chunks(a);
      assert a + d[|d| - 3..] == d;
    }
  }

  /** Every group of a numeral is made of digits. */
  lemma {:induction false} ChunksDigits(d: string)
    requires IsDigits(d)
    ensures forall k :: 0 <= k < |Chunks(d)| ==> IsDigits(Chunks(d)[k])
    decreases |d|
  {
    if |d| > 3 {
      var a := d[..|d| - 3];
      assert IsDigits(a) by {
        forall k | 0 <= k < |a| ensures IsDigit(a[k]) { assert a[k] == d[k]; }
      }
      var t := d[|d| - 3..];
      assert IsDigits(t) by {
        forall k | 0 <= k < |t| ensures IsDigit(t[k]) { assert t[k] == d[|d| - 3 + k]; }
      }
      ChunksDigits(a);
    }
  }

  lemma DigitsNoComma(s: string)
    requires IsDigits(s)
    ensures ',' !in s
  {
    forall k | 0 <= k < |s| ensures s[k] != ',' {
      assert IsDigit(s[k]);
    }
  }

  /** The reference text: the sign, then the groups joined by commas. */
  function Grouped(n: int): string {
    (if n < 0 then "-" else "") + Join(Chunks(Decimal(if n < 0 then -n else n)), ',')
  }

  lemma {:induction false} JoinSnoc(xs: seq<string>, y: string, sep: char)
    requires |xs| >= 1
    ensures Join(xs + [y], sep) == Join(xs, sep) + [sep] + y
  {
    if |xs| > 1 {
      assert (xs + [y])[1..] == xs[1..] + [y];
      JoinSnoc(xs[1..], y, sep);
    }
  }

  // ----- the expression matches exactly at the group boundaries -----

  lemma {:induction false} RunDigits(s: string, i: nat)
    requires i <= |s|
    requires forall k :: i <= k < |s| ==> IsDigit(s[k])
    ensures Run(s, i) == |s| - i
    decreases |s| - i
  {
    if i < |s| {
      RunDigits(s, i + 1);
    }
  }

  /** On a sign `p` followed by the digits `d`, the expression matches before
      the digit at position `i` of `d` iff `i > 0` and a multiple of three
      digits follows. */
  lemma {:induction false} CommaAtNumber(p: string, d: string, i: nat)
    requires p == "" || p == "-"
    requires IsDigits(d) && i < |d|
    ensures CommaAt(p + d, |p| + i) <==> i > 0 && (|d| - i) % 3 == 0
  {
    var s := p + d;
    forall k | |p| + i <= k < |s| ensures IsDigit(s[k]) {
      assert s[k] == d[k - |p|];
    }
    RunDigits(s, |p| + i);
    assert s[|p| + i] == d[i];
    if i > 0 {
      assert s[|p| + i - 1] == d[i - 1];
    }
  }

  /** Before the digits, the sign is copied and nothing is inserted. */
  lemma PiecesSign(p: string, d: string)
    requires p == "" || p == "-"
    requires IsDigits(d)
    ensures Pieces(p + d, |p|) == p
  {
    if p == "-" {
      var s := p + d;
      assert s[0] == '-';
      assert !Lookahead(s, 0);
    }
  }

  /** Up to the end of the first group, the digits are copied unchanged. */
  lemma {:induction false} PiecesFirstGroup(p: string, d: string, j: nat, m: nat)
    requires p == "" || p == "-"
    requires IsDigits(d) && 1 <= m <= 3 && m <= |d| && (|d| - m) % 3 == 0
    requires j <= m
    ensures Pieces(p + d, |p| + j) == p + d[..j]
  {
    if j == 0 {
      PiecesSign(p, d);
    } else {
      PiecesFirstGroup(p, d, j - 1, m);
      CommaAtNumber(p, d, j - 1);
      assert (p + d)[|p| + j - 1] == d[j - 1];
      assert d[..j] == d[..j - 1] + [d[j - 1]];
    }
  }

  /** Three digits further on, a comma and the three digits are appended. */
  lemma {:induction false} PiecesStep(p: string, d: string, m: nat)
    requires p == "" || p == "-"
    requires IsDigits(d) && 3 < m <= |d| && (|d| - m) % 3 == 0
    ensures Pieces(p + d, |p| + m) == Pieces(p + d, |p| + m - 3) + [','] + d[m - 3..m]
  {
    PiecesTwo(p, d, m);
    PiecesDigit(p, d, m - 1);
    assert d[m - 3..m] == [d[m - 3], d[m - 2]] + [d[m - 1]];
  }

  /** The comma and the first two digits of a group of three. */
  lemma {:induction false} PiecesTwo(p: string, d: string, m: nat)
    requires p == "" || p == "-"
    requires IsDigits(d) && 3 < m <= |d| && (|d| - m) % 3 == 0
    ensures Pieces(p + d, |p| + m - 1) == Pieces(p + d, |p| + m - 3) + [','] + [d[m - 3], d[m - 2]]
  {
    PiecesComma(p, d, m - 3);
    PiecesDigit(p, d, m - 2);
  }

  /** One digit further on, where the expression matches: a comma, then the
      digit. */
  lemma {:induction false} PiecesComma(p: string, d: string, i: nat)
    requires p == "" || p == "-"
    requires IsDigits(d) && 0 < i < |d| && (|d| - i) % 3 == 0
    ensures Pieces(p + d, |p| + i + 1) == Pieces(p + d, |p| + i) + [','] + [d[i]]
  {
    CommaAtNumber(p, d, i);
    assert (p + d)[|p| + i] == d[i];
  }

  /** One digit further on, where the expression does not match: the digit. */
  lemma {:induction false} PiecesDigit(p: string, d: string, i: nat)
    requires p == "" || p == "-"
    requires IsDigits(d) && i < |d| && (|d| - i) % 3 != 0
    ensures Pieces(p + d, |p| + i + 1) == Pieces(p + d, |p| + i) + [d[i]]
  {
    CommaAtNumber(p, d, i);
    assert (p + d)[|p| + i] == d[i];
  }

  /** Three digits further on, the reference appends a comma and those digits. */
  lemma {:induction false} GroupStep(d: string, m: nat)
    requires 3 < m <= |d|
    ensures Join(Chunks(d[..m]), ',') == Join(Chunks(d[..m - 3]), ',') + [','] + d[m - 3..m]
  {
    var a := d[..m - 3];
    assert d[..m][..m - 3] == a;
    assert d[..m][m - 3..] == d[m - 3..m];
    assert Chunks(d[..m]) == Chunks(a) + [d[m - 3..m]];
    JoinSnoc(Chunks(a), d[m - 3..m], ',');
  }

  /** At each group boundary, the replaced prefix is the sign and the groups so
      far joined by commas. */
  lemma {:induction false} PiecesGroups(p: string, d: string, m: nat)
    requires p == "" || p == "-"
    requires IsDigits(d) && 1 <= m <= |d| && (|d| - m) % 3 == 0
    ensures Pieces(p + d, |p| + m) == p + Join(Chunks(d[..m]), ',')
    decreases m
  {
    if m <= 3 {
      PiecesFirstGroup(p, d, m, m);
    } else {
      PiecesGroups(p, d, m - 3);
      PiecesStep(p, d, m);
      GroupStep(d, m);
      AppendComma(p, Join(Chunks(d[..m - 3]), ','), d[m - 3..m]);
    }
  }

  lemma AppendComma(p: string, g: string, t: string)
    ensures p + (g + [','] + t) == (p + g) + [','] + t
  {
  }

  /** `formatNumber` is the reference grouping. */
  lemma FormatNumberGrouped(n: int)
    ensures FormatNumber(n) == Grouped(n)
  {
    var p := if n < 0 then "-" else "";
    var d := Decimal(if n < 0 then -n else n);
    assert IntToString(n) == p + d;
    PiecesGroups(p, d, |d|);
    assert d[..|d|] == d;
  }

  // ----- properties of the result -----

  function RemoveCommas(s: string): (r: string)
    ensures ',' !in r
  {
    if s == [] then [] else RemoveCommas(s[..|s| - 1]) + (if s[|s| - 1] == ',' then [] else [s[|s| - 1]])
  }

  lemma {:induction false} RemoveCommasAppend(a: string, b: string)
    ensures RemoveCommas(a + b) == RemoveCommas(a) + RemoveCommas(b)
    decreases |b|
  {
    if b == [] {
      assert a + b == a;
    } else {
      assert (a + b)[..|a + b| - 1] == a + b[..|b| - 1];
      RemoveCommasAppend(a, b[..|b| - 1]);
    }
  }

  lemma {:induction false} RemoveCommasNone(s: string)
    requires ',' !in s
    ensures RemoveCommas(s) == s
  {
    if s != [] {
      RemoveCommasNone(s[..|s| - 1]);
    }
  }

  lemma {:induction false} RemoveCommasJoin(xs: seq<string>)
    requires |xs| >= 1
    requires forall k :: 0 <= k < |xs| ==> ',' !in xs[k]
    ensures RemoveCommas(Join(xs, ',')) == Concat(xs)
    decreases |xs|
  {
    if |xs| == 1 {
      RemoveCommasNone(xs[0]);
      assert Concat(xs) == Concat(xs[..0]) + xs[0];
    } else {
      var init, y := xs[..|xs| - 1], xs[|xs| - 1];
      RemoveCommasJoin(init);
      assert init + [y] == xs;
      JoinSnoc(init, y, ',');
      RemoveCommasSnoc(Join(init, ','), y);
    }
  }

  lemma RemoveCommasSnoc(a: string, y: string)
    requires ',' !in y
    ensures RemoveCommas(a + [','] + y) == RemoveCommas(a) + y
  {
    var b := a + [','];
    assert b[..|b| - 1] == a;
    assert RemoveCommas(b) == RemoveCommas(a);
    RemoveCommasAppend(b, y);
    RemoveCommasNone(y);
  }

  lemma ChunksNoComma(d: string)
    requires IsDigits(d)
    ensures forall k :: 0 <= k < |Chunks(d)| ==> ',' !in Chunks(d)[k]
  {
    ChunksDigits(d);
    forall k | 0 <= k < |Chunks(d)| ensures ',' !in Chunks(d)[k] {
      DigitsNoComma(Chunks(d)[k]);
    }
  }

  /** Deleting the commas gives back the text of the number. */
  lemma FormatNumberDigits(n: int)
    ensures RemoveCommas(FormatNumber(n)) == IntToString(n)
  {
    FormatNumberGrouped(n);
    var p := if n < 0 then "-" else "";
    var d := Decimal(if n < 0 then -n else n);
    ChunksNoComma(d);
    RemoveCommasJoin(Chunks(d));
    ChunksConcat(d);
    RemoveCommasNone(p);
    RemoveCommasAppend(p, Join(Chunks(d), ','));
  }

  /** Numbers strictly between -1000 and 1000 are returned unchanged. */
  lemma FormatNumberSmall(n: int)
    requires -1000 < n < 1000
    ensures FormatNumber(n) == IntToString(n)
  {
    FormatNumberGrouped(n);
    DecimalBelowThousand(if n < 0 then -n else n);
  }

  /** The digits after the sign, split at the commas, are the groups: the first
      has one to three digits and every other exactly three, so no comma
      leads, trails or follows another; and a negative number's first
      character after the `-` is a digit. */
  lemma FormatNumberGroups(n: int)
    ensures var r := FormatNumber(n);
      var off := if n < 0 then 1 else 0;
      && off < |r|
      && var g := Split(r[off..], ',');
      && 1 <= |g[0]| <= 3
      && (forall k :: 1 <= k < |g| ==> |g[k]| == 3)
      && (forall k :: 0 <= k < |g| ==> IsDigits(g[k]))
      && (n < 0 ==> r[0] == '-' && IsDigit(r[1]))
  {
    FormatNumberGrouped(n);
    var p := if n < 0 then "-" else "";
    var d := Decimal(if n < 0 then -n else n);
    var c := Chunks(d);
    ChunksNoComma(d);
    ChunksDigits(d);
    SplitJoin(c, ',');
    var r := FormatNumber(n);
    assert r == p + Join(c, ',');
    assert r[|p|..] == Join(c, ',');
    JoinHead(c, ',');
    if n < 0 {
      assert r[1] == Join(c, ',')[0] == c[0][0];
    }
  }

  lemma JoinHead(xs: seq<string>, sep: char)
    requires |xs| >= 1 && xs[0] != []
    ensures Join(xs, sep) != [] && Join(xs, sep)[0] == xs[0][0]
  {
  }
}
