/** The uploaded plate table: header normalisation and the required-column
    check (app.py lines 14-16), and the boolean-mask row filter followed by
    the index reset that produce the selected table (app.py lines 40-41). */
module Table {

  /** The characters for which Python's `str.isspace()` holds: the ones
      `str.strip()` removes when given no argument. */
  const Whitespace: set<char> := {
    '\t', '\n', '\U{0B}', '\U{0C}', '\r', '\U{1C}', '\U{1D}', '\U{1E}', '\U{1F}', ' ',
    '\U{85}', '\U{A0}', '\U{1680}',
    '\U{2000}', '\U{2001}', '\U{2002}', '\U{2003}', '\U{2004}', '\U{2005}',
    '\U{2006}', '\U{2007}', '\U{2008}', '\U{2009}', '\U{200A}',
    '\U{2028}', '\U{2029}', '\U{202F}', '\U{205F}', '\U{3000}'
  }

  /** Every character of `s` is one of `chars`. */
  predicate AllIn(s: string, chars: set<char>) {
    forall i :: 0 <= i < |s| ==> s[i] in chars
  }

  /** Neither end of `s` is one of `chars`. */
  predicate Trimmed(s: string, chars: set<char>) {
    s == [] || (s[0] !in chars && s[|s| - 1] !in chars)
  }

  /** `s.lstrip(chars)`: the suffix of `s` that starts at its first
      character outside `chars`. */
  function StripLeft(s: string, chars: set<char>): (r: string)
    ensures |r| <= |s| && r == s[|s| - |r|..]
    ensures AllIn(s[..|s| - |r|], chars)
    ensures r == [] || r[0] !in chars
  {
    if |s| > 0 && s[0] in chars then
      var r := StripLeft(s[1..], chars);
      assert s[..|s| - |r|] == [s[0]] + s[1..][..|s| - 1 - |r|];
      r
    else s
  }

  /** `s.rstrip(chars)`: the prefix of `s` that ends at its last character
      outside `chars`. */
  function StripRight(s: string, chars: set<char>): (r: string)
    ensures |r| <= |s| && r == s[..|r|]
    ensures AllIn(s[|r|..], chars)
    ensures r == [] || r[|r| - 1] !in chars
  {
    if |s| > 0 && s[|s| - 1] in chars then
      var r := StripRight(s[..|s| - 1], chars);
      assert s[|r|..] == s[..|s| - 1][|r|..] + [s[|s| - 1]];
      r
    else s
  }

  /** `s.strip(chars)`. */
  function StripChars(s: string, chars: set<char>): (r: string)
    ensures Trimmed(r, chars)
  {
    var left := StripLeft(s, chars);
    var r := StripRight(left, chars);
    assert r != [] ==> r[0] == left[0];
    r
  }

  /** `s.strip()`, as applied to every header name. */
  function Strip(s: string): (r: string)
    ensures Trimmed(r, Whitespace)
  {
    StripChars(s, Whitespace)
  }

  /** `s.strip(chars)` is the slice of `s` between a prefix and a suffix made
      only of `chars`. */
  lemma StripSlice(s: string, chars: set<char>) returns (k: nat)
    ensures k + |StripChars(s, chars)| <= |s|
    ensures s[k..k + |StripChars(s, chars)|] == StripChars(s, chars)
    ensures AllIn(s[..k], chars) && AllIn(s[k + |StripChars(s, chars)|..], chars)
  {
    var left := StripLeft(s, chars);
    var r := StripRight(left, chars);
    k := |s| - |left|;
    assert s[k..k + |r|] == r by {
      assert left == s[k..];
      assert r == left[..|r|];
    }
    assert s[k + |r|..] == left[|r|..] by {
      assert left == s[k..];
    }
  }

  /** Characters of `chars` in front of a part that does not start with one
      are exactly what `s.lstrip(chars)` removes. */
  lemma StripLeftPadded(lead: string, rest: string, chars: set<char>)
    requires AllIn(lead, chars)
    requires rest == [] || rest[0] !in chars
    ensures StripLeft(lead + rest, chars) == rest
  {
    var s := lead + rest;
    var k := |s| - |StripLeft(s, chars)|;
    assert s[..k] == (lead + rest)[..k];
    if rest != [] {
      assert s[|lead|] == rest[0];
    }
    assert k <= |lead| ==> s[k..] == lead[k..] + rest;
    assert k == |lead|;
  }

  /** Characters of `chars` after a part that does not end with one are
      exactly what `s.rstrip(chars)` removes. */
  lemma StripRightPadded(rest: string, trail: string, chars: set<char>)
    requires AllIn(trail, chars)
    requires rest == [] || rest[|rest| - 1] !in chars
    ensures StripRight(rest + trail, chars) == rest
  {
    var s := rest + trail;
    var n := |StripRight(s, chars)|;
    if rest != [] {
      assert s[|rest| - 1] == rest[|rest| - 1];
    }
    assert n >= |rest| ==> s[..n] == rest + trail[..n - |rest|];
    assert n == |rest|;
  }

  /** Stripping undoes any padding around a trimmed string: the
      characterisation of `s.strip(chars)` that does not mention how it is
      computed. */
  lemma StripPadded(lead: string, core: string, trail: string, chars: set<char>)
    requires AllIn(lead, chars) && AllIn(trail, chars)
    requires Trimmed(core, chars)
    ensures StripChars(lead + core + trail, chars) == core
  {
    if core == [] {
      assert lead + core + trail == (lead + trail) + [];
      StripLeftPadded(lead + trail, [], chars);
    } else {
      assert lead + core + trail == lead + (core + trail);
      StripLeftPadded(lead, core + trail, chars);
      StripRightPadded(core, trail, chars);
    }
  }

  /** Stripping twice changes nothing more. */
  lemma StripIdempotent(s: string, chars: set<char>)
    ensures StripChars(StripChars(s, chars), chars) == StripChars(s, chars)
  {
    StripPadded([], StripChars(s, chars), [], chars);
    assert [] + StripChars(s, chars) + [] == StripChars(s, chars);
  }

  const WeightColumn := "Plate Weight"
  const ThicknessColumn := "Plate Thickness"

  /** The header row after `df.columns = [col.strip() for col in df.columns]`. */
  function Normalized(columns: seq<string>): (r: seq<string>)
    ensures |r| == |columns|
    ensures forall i :: 0 <= i < |columns| ==> r[i] == Strip(columns[i])
  {
    seq(|columns|, i requires 0 <= i < |columns| => Strip(columns[i]))
  }

  /** The check on the (already stripped) header row that decides whether
      the table is accepted. */
  function HasPlateColumns(columns: seq<string>): (ok: bool)
    ensures ok <==> (exists i :: 0 <= i < |columns| && columns[i] == WeightColumn)
                    && (exists j :: 0 <= j < |columns| && columns[j] == ThicknessColumn)
    ensures ok ==> |columns| >= 2
  {
    WeightColumn in columns && ThicknessColumn in columns
  }

  /** A raw header row is accepted exactly when some header strips to
      "Plate Weight" and some header strips to "Plate Thickness". */
  lemma AcceptedHeaders(raw: seq<string>)
    ensures HasPlateColumns(Normalized(raw)) <==>
              (exists i :: 0 <= i < |raw| && Strip(raw[i]) == WeightColumn)
              && (exists j :: 0 <= j < |raw| && Strip(raw[j]) == ThicknessColumn)
  {
    var n := Normalized(raw);
    if WeightColumn in n {
      var i :| 0 <= i < |n| && n[i] == WeightColumn;
      assert Strip(raw[i]) == WeightColumn;
    }
    if ThicknessColumn in n {
      var j :| 0 <= j < |n| && n[j] == ThicknessColumn;
      assert Strip(raw[j]) == ThicknessColumn;
    }
  }

  /** No printable ASCII character is whitespace. */
  lemma PrintableNotSpace(c: char)
    requires ' ' < c <= '~'
    ensures c !in Whitespace
  {
  }

  /** Whitespace around the two required headers is tolerated wherever
      they stand in the header row. */
  lemma PaddedHeadersAccepted(raw: seq<string>, i: nat, j: nat, pad: seq<string>)
    requires i < |raw| && j < |raw| && |pad| == 4
    requires forall p :: 0 <= p < 4 ==> AllIn(pad[p], Whitespace)
    requires raw[i] == pad[0] + WeightColumn + pad[1]
    requires raw[j] == pad[2] + ThicknessColumn + pad[3]
    ensures HasPlateColumns(Normalized(raw))
  {
    PrintableNotSpace('P');
    PrintableNotSpace('t');
    StripPadded(pad[0], WeightColumn, pad[1], Whitespace);
    StripPadded(pad[2], ThicknessColumn, pad[3], Whitespace);
    assert Normalized(raw)[i] == WeightColumn;
    assert Normalized(raw)[j] == ThicknessColumn;
  }

  /** The rows whose mask entry is true, in their original order. */
  function Select<T>(rows: seq<T>, mask: seq<bool>): (r: seq<T>)
    requires |rows| == |mask|
    ensures |r| <= |rows|
  {
    if |rows| == 0 then []
    else (if mask[0] then [rows[0]] else []) + Select(rows[1..], mask[1..])
  }

  /** The positions, counted from `base`, of the true entries of `mask`. */
  function PositionsFrom(mask: seq<bool>, base: int): (r: seq<int>)
    ensures |r| <= |mask|
  {
    if |mask| == 0 then []
    else (if mask[0] then [base] else []) + PositionsFrom(mask[1..], base + 1)
  }

  /** Each position of a mask is a true entry of it. */
  lemma {:induction false} PositionsKept(mask: seq<bool>, base: int)
    ensures forall j :: 0 <= j < |PositionsFrom(mask, base)| ==>
              base <= PositionsFrom(mask, base)[j] < base + |mask| && mask[PositionsFrom(mask, base)[j] - base]
  {
    if |mask| > 0 {
      var rest := PositionsFrom(mask[1..], base + 1);
      PositionsKept(mask[1..], base + 1);
      var head: seq<int> := if mask[0] then [base] else [];
      var r := head + rest;
      assert r == PositionsFrom(mask, base);
      forall j | |head| <= j < |r|
        ensures base <= r[j] < base + |mask| && mask[r[j] - base]
      {
        var t := j - |head|;
        assert r[j] == rest[t];
        assert mask[1..][rest[t] - (base + 1)] == mask[rest[t] - base];
      }
    }
  }

  /** The positions of a mask are strictly increasing. */
  lemma {:induction false} PositionsIncreasing(mask: seq<bool>, base: int)
    ensures forall j :: 0 <= j < |PositionsFrom(mask, base)| ==> base <= PositionsFrom(mask, base)[j]
    ensures forall j, k :: 0 <= j < k < |PositionsFrom(mask, base)| ==>
              PositionsFrom(mask, base)[j] < PositionsFrom(mask, base)[k]
  {
    if |mask| > 0 {
      var rest := PositionsFrom(mask[1..], base + 1);
      PositionsIncreasing(mask[1..], base + 1);
      var head: seq<int> := if mask[0] then [base] else [];
      var r := head + rest;
      assert r == PositionsFrom(mask, base);
      forall j, k | 0 <= j < k < |r|
        ensures r[j] < r[k]
      {
        if j >= |head| {
          assert r[j] == rest[j - |head|] && r[k] == rest[k - |head|];
        } else {
          assert r[k] == rest[k - 1];
        }
      }
    }
  }

  /** Every true entry of a mask is among its positions. */
  lemma {:induction false} PositionsComplete(mask: seq<bool>, base: int)
    ensures forall i :: 0 <= i < |mask| && mask[i] ==> base + i in PositionsFrom(mask, base)
  {
    if |mask| > 0 {
      var rest := PositionsFrom(mask[1..], base + 1);
      PositionsComplete(mask[1..], base + 1);
      var head: seq<int> := if mask[0] then [base] else [];
      assert head + rest == PositionsFrom(mask, base);
      forall i | 1 <= i < |mask| && mask[i]
        ensures base + i in rest
      {
        assert mask[1..][i - 1];
      }
    }
  }

  /** The original row numbers of the rows a mask keeps. */
  function Positions(mask: seq<bool>): (r: seq<int>)
    ensures forall j :: 0 <= j < |r| ==> 0 <= r[j] < |mask| && mask[r[j]]
    ensures forall j, k :: 0 <= j < k < |r| ==> r[j] < r[k]
    ensures forall i :: 0 <= i < |mask| && mask[i] ==> i in r
  {
    var r := PositionsFrom(mask, 0);
    PositionsKept(mask, 0);
    PositionsIncreasing(mask, 0);
    PositionsComplete(mask, 0);
    assert forall j :: 0 <= j < |r| ==> r[j] - 0 == r[j];
    assert forall i :: 0 <= i < |mask| && mask[i] ==> 0 + i in r;
    r
  }

  lemma {:induction false} SelectLength<T>(rows: seq<T>, mask: seq<bool>, base: int)
    requires |rows| == |mask|
    ensures |Select(rows, mask)| == |PositionsFrom(mask, base)|
  {
    if |rows| > 0 {
      SelectLength(rows[1..], mask[1..], base + 1);
    }
  }

  lemma {:induction false} SelectAtFrom<T>(rows: seq<T>, mask: seq<bool>, base: int)
    requires |rows| == |mask|
    ensures |Select(rows, mask)| == |PositionsFrom(mask, base)|
    ensures forall j :: 0 <= j < |Select(rows, mask)| ==>
              0 <= PositionsFrom(mask, base)[j] - base < |rows|
              && Select(rows, mask)[j] == rows[PositionsFrom(mask, base)[j] - base]
  {
    SelectLength(rows, mask, base);
    if |rows| > 0 {
      var sel, pos := Select(rows[1..], mask[1..]), PositionsFrom(mask[1..], base + 1);
      SelectAtFrom(rows[1..], mask[1..], base + 1);
      var head: seq<T> := if mask[0] then [rows[0]] else [];
      var first: seq<int> := if mask[0] then [base] else [];
      var S, P := head + sel, first + pos;
      assert S == Select(rows, mask) && P == PositionsFrom(mask, base);
      forall j | 0 <= j < |S|
        ensures 0 <= P[j] - base < |rows| && S[j] == rows[P[j] - base]
      {
        if j >= |head| {
          var t := j - |head|;
          assert S[j] == sel[t] && P[j] == pos[t];
          assert rows[1..][pos[t] - (base + 1)] == rows[pos[t] - base];
        }
      }
    }
  }

  /** Row `j` of the filtered table is the input row at the `j`-th kept
      position: the filter adds, duplicates and reorders nothing. */
  lemma SelectAt<T>(rows: seq<T>, mask: seq<bool>)
    requires |rows| == |mask|
    ensures |Select(rows, mask)| == |Positions(mask)|
    ensures forall j :: 0 <= j < |Select(rows, mask)| ==>
              Select(rows, mask)[j] == rows[Positions(mask)[j]]
  {
    SelectAtFrom(rows, mask, 0);
  }

  /** The default index 0, 1, ..., n-1 of a freshly read table. */
  function Range(n: nat): (r: seq<int>)
    ensures |r| == n && forall i :: 0 <= i < n ==> r[i] == i
  {
    seq(n, i => i)
  }

  /** Filtering a table with the default index leaves as index labels the
      original row numbers of the kept rows. */
  lemma FilteredLabels(mask: seq<bool>)
    ensures Select(Range(|mask|), mask) == Positions(mask)
  {
    SelectAt(Range(|mask|), mask);
  }

  /** The header row of `df[key]` for a list of booleans `key`. pandas
      reads such a list as a row mask only when it is not empty; the empty
      list is read as an empty list of column labels, which selects no
      column at all. */
  function MaskColumns(columns: seq<string>, mask: seq<bool>): (r: seq<string>)
    ensures |mask| > 0 ==> r == columns
    ensures |mask| == 0 ==> r == []
  {
    if |mask| == 0 then [] else columns
  }

  /** The filtered table still has both plate columns exactly when the key
      was a row mask, that is, when the table had rows. */
  lemma MaskKeepsPlateColumns(columns: seq<string>, mask: seq<bool>)
    requires HasPlateColumns(columns)
    ensures HasPlateColumns(MaskColumns(columns, mask)) <==> |mask| > 0
  {
  }

  /** A table: header row, index labels and rows (in the model a row is
      the record the optimizer reads from it). */
  class Frame<T> {
    var columns: seq<string>
    var index: seq<int>
    var rows: seq<T>

    ghost predicate Valid()
      reads this
    {
      |index| == |rows|
    }

    /** A table as read from the spreadsheet, with the default index. */
    constructor (columns: seq<string>, rows: seq<T>)
      ensures Valid()
      ensures this.columns == columns && this.rows == rows && index == Range(|rows|)
    {
      this.columns := columns;
      this.rows := rows;
      index := Range(|rows|);
    }

    /** `df.columns = [col.strip() for col in df.columns]`. */
    method StripColumnNames()
      modifies this`columns
      ensures columns == Normalized(old(columns))
    {
      columns := Normalized(columns);
    }

    /** `df[mask].copy()`: a new table with the rows whose mask entry is
        true, keeping their index labels; the header row is kept unless the
        mask is empty (a table without rows), which selects no column. */
    method Filter(mask: seq<bool>) returns (f: Frame<T>)
      requires Valid() && |mask| == |rows|
      ensures fresh(f) && f.Valid()
      ensures f.columns == MaskColumns(columns, mask)
      ensures f.rows == Select(rows, mask) && f.index == Select(index, mask)
    {
      f := new Frame(MaskColumns(columns, mask), Select(rows, mask));
      SelectAt(rows, mask);
      SelectAt(index, mask);
      f.index := Select(index, mask);
    }

    /** `reset_index(drop=True, inplace=True)`: rows and header unchanged,
        index relabelled 0, 1, ..., n-1. */
    method ResetIndex()
      requires Valid()
      modifies this`index
      ensures Valid() && index == Range(|rows|)
    {
      index := Range(|rows|);
    }
  }
}
