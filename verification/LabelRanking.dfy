/** Ranking candidates by a label a person attached: the keys of the three strategies as orders on
    strings, and the ranked table. */
module LabelRanking {
  import opened Options
  import opened Sorting
  import opened Strings

  // ----- the first number of a label ---------------------------------------------------------------

  /** The end of the run of digits that starts at `from`. */
  function DigitsEnd(s: string, from: nat): (e: nat)
    requires from <= |s|
    ensures from <= e <= |s|
    ensures forall i :: from <= i < e ==> IsDigit(s[i])
    ensures e < |s| ==> !IsDigit(s[e])
    decreases |s| - from
  {
    if from < |s| && IsDigit(s[from]) then DigitsEnd(s, from + 1) else from
  }

  function PowerOfTen(n: nat): (p: real)
    ensures p >= 1.0
  {
    if n == 0 then 1.0 else PowerOfTen(n - 1) * 10.0
  }

  /** The digits at `start`, and the fraction if a point and more digits follow. */
  function UnsignedAt(s: string, start: nat): (r: Option<real>)
    requires start <= |s|
    ensures r.Some? <==> start < |s| && IsDigit(s[start])
  {
    var end := DigitsEnd(s, start);
    if end == start then None
    else
      var whole := DigitsValue(s[start..end]) as real;
      if end < |s| && s[end] == '.' && DigitsEnd(s, end + 1) > end + 1 then
        var last := DigitsEnd(s, end + 1);
        Some(whole + DigitsValue(s[end + 1..last]) as real / PowerOfTen(last - end - 1))
      else Some(whole)
  }

  function NumberAt(s: string, i: nat): Option<real>
    requires i < |s|
  {
    if s[i] == '-' then
      var n := UnsignedAt(s, i + 1);
      if n.Some? then Some(-n.value) else None
    else UnsignedAt(s, i)
  }

  /** The leftmost match of `-?\d+(?:\.\d+)?` at or after `from`. */
  function FirstNumber(s: string, from: nat): Option<real>
    requires from <= |s|
    decreases |s| - from
  {
    if from == |s| then None
    else if NumberAt(s, from).Some? then NumberAt(s, from)
    else FirstNumber(s, from + 1)
  }

  function NumberOf(s: string): Option<real> {
    FirstNumber(s, 0)
  }

  lemma NumberAtDigit(s: string, i: nat)
    requires i < |s|
    ensures NumberAt(s, i).Some? <==> IsDigit(s[i]) || (s[i] == '-' && i + 1 < |s| && IsDigit(s[i + 1]))
  {}

  /** A label has a number exactly when it has a digit. */
  lemma {:induction false} NumberIffDigit(s: string, from: nat)
    requires from <= |s|
    ensures FirstNumber(s, from).Some? <==> exists i :: from <= i < |s| && IsDigit(s[i])
    decreases |s| - from
  {
    hide NumberAt, IsDigit;
    if from < |s| {
      NumberAtDigit(s, from);
      NumberIffDigit(s, from + 1);
    }
  }

  lemma {:induction false} SkipText(pre: string, t: string, from: nat)
    requires from <= |pre| && forall i :: 0 <= i < |pre| ==> !IsDigit(pre[i])
    requires pre == "" || pre[|pre| - 1] != '-' || t == "" || !IsDigit(t[0])
    ensures FirstNumber(pre + t, from) == FirstNumber(pre + t, |pre|)
    decreases |pre| - from
  {
    if from < |pre| {
      assert (pre + t)[from] == pre[from];
      if from + 1 < |pre| {
        assert (pre + t)[from + 1] == pre[from + 1];
      }
      SkipText(pre, t, from + 1);
    }
  }

  lemma {:induction false} RunsToEnd(s: string, from: nat)
    requires from <= |s| && forall i :: from <= i < |s| ==> IsDigit(s[i])
    ensures DigitsEnd(s, from) == |s|
    decreases |s| - from
  {
    if from < |s| {
      RunsToEnd(s, from + 1);
    }
  }

  lemma UnsignedReadsBack(pre: string, n: nat)
    ensures var s := pre + Decimal(n);
      UnsignedAt(s, |pre|) == Some(n as real) && IsDigit(s[|pre|])
  {
    hide DigitsEnd, Decimal;
    var d := Decimal(n);
    var s := pre + d;
    assert forall i :: |pre| <= i < |s| ==> s[i] == d[i - |pre|];
    RunsToEnd(s, |pre|);
    assert s[|pre|..|s|] == d;
    DecimalValue(n);
  }

  /** A number written after text without digits is read back, `Gold 92` as 92; a `-` right before it is
      its sign. */
  lemma ReadsBack(pre: string, n: nat)
    requires forall i :: 0 <= i < |pre| ==> !IsDigit(pre[i])
    ensures NumberOf(pre + Decimal(n)) ==
      Some(if pre != "" && pre[|pre| - 1] == '-' then -(n as real) else n as real)
  {
    hide UnsignedAt, Decimal;
    UnsignedReadsBack(pre, n);
    if pre != "" && pre[|pre| - 1] == '-' {
      var before := pre[..|pre| - 1];
      SkipText(before, "-" + Decimal(n), 0);
      assert pre + Decimal(n) == before + ("-" + Decimal(n));
    } else {
      SkipText(pre, Decimal(n), 0);
    }
  }

  // ----- the orders --------------------------------------------------------------------------------

  datatype Strategy =
    | Numeric(descending: bool)
    | Tiered(tiers: seq<string>, descending: bool)
    | Lexical(descending: bool)

  function LowerChar(c: char): char {
    if 'A' <= c <= 'Z' then (c as int + 32) as char else c
  }

  function Lower(s: string): string {
    seq(|s|, i requires 0 <= i < |s| => LowerChar(s[i]))
  }

  predicate IsSpace(c: char) {
    c == ' ' || '\t' <= c <= '\r'
  }

  function Strip(s: string): string {
    if s == "" then ""
    else if IsSpace(s[0]) then Strip(s[1..])
    else if IsSpace(s[|s| - 1]) then Strip(s[..|s| - 1])
    else s
  }

  /** The first tier at or after `from` the label starts with, or the number of tiers. */
  function TierFrom(low: string, tiers: seq<string>, from: nat): nat
    requires from <= |tiers|
    decreases |tiers| - from
  {
    if from == |tiers| || Lower(tiers[from]) <= low then from else TierFrom(low, tiers, from + 1)
  }

  function TierOf(value: string, tiers: seq<string>): nat {
    TierFrom(Lower(Strip(value)), tiers, 0)
  }

  /** A number with its sign, `None` for infinity. */
  function NumberKey(value: string, descending: bool): Option<real> {
    var n := NumberOf(value);
    if n.Some? && descending then Some(-n.value) else n
  }

  predicate NumberLess(a: Option<real>, b: Option<real>) {
    a.Some? && (b.None? || a.value < b.value)
  }

  /** By number, then by the label itself. */
  predicate NumericLe(a: string, b: string, descending: bool) {
    var x, y := NumberKey(a, descending), NumberKey(b, descending);
    NumberLess(x, y) || (x == y && StrLe(a, b))
  }

  /** Tuples of negated code points. */
  predicate NegatedLe(a: string, b: string) {
    a == "" || (b != "" && (a[0] > b[0] || (a[0] == b[0] && NegatedLe(a[1..], b[1..]))))
  }

  predicate LabelLe(strategy: Strategy, a: string, b: string) {
    match strategy
    case Numeric(descending) => NumericLe(a, b, descending)
    case Tiered(tiers, descending) =>
      var x, y := TierOf(a, tiers), TierOf(b, tiers);
      x < y || (x == y && NumericLe(a, b, descending))
    case Lexical(descending) => if descending then NegatedLe(a, b) else StrLe(a, b)
  }

  lemma {:induction false} NegatedTotal(a: string, b: string)
    ensures NegatedLe(a, b) || NegatedLe(b, a)
    ensures NegatedLe(a, b) && NegatedLe(b, a) ==> a == b
    ensures NegatedLe(a, a)
  {
    if a != "" {
      NegatedTotal(a[1..], a[1..]);
      if b != "" {
        NegatedTotal(a[1..], b[1..]);
        if a[0] == b[0] && a[1..] == b[1..] {
          assert a == [a[0]] + a[1..] && b == [b[0]] + b[1..];
        }
      }
    }
  }

  lemma {:induction false} NegatedTransitive(a: string, b: string, c: string)
    requires NegatedLe(a, b) && NegatedLe(b, c)
    ensures NegatedLe(a, c)
  {
    if a != "" && a[0] == b[0] == c[0] {
      NegatedTransitive(a[1..], b[1..], c[1..]);
    }
  }

  /** Every strategy orders labels totally, and only equal labels tie. */
  lemma LabelsTotal(strategy: Strategy, a: string, b: string)
    ensures LabelLe(strategy, a, b) || LabelLe(strategy, b, a)
    ensures LabelLe(strategy, a, b) && LabelLe(strategy, b, a) ==> a == b
  {
    hide NumberKey, TierOf;
    StrLeTotal(a, b);
    NegatedTotal(a, b);
  }

  lemma LabelsTransitive(strategy: Strategy, a: string, b: string, c: string)
    requires LabelLe(strategy, a, b) && LabelLe(strategy, b, c)
    ensures LabelLe(strategy, a, c)
  {
    hide NumberKey, TierOf, StrLe, NegatedLe;
    if StrLe(a, b) && StrLe(b, c) {
      StrLeTransitive(a, b, c);
    }
    if NegatedLe(a, b) && NegatedLe(b, c) {
      NegatedTransitive(a, b, c);
    }
  }

  /** Labels without a number come after those with one, in both directions; with tiers, within a tier. */
  lemma NoNumberLast(strategy: Strategy, a: string, b: string)
    requires NumberOf(a).Some? && NumberOf(b).None? && !strategy.Lexical?
    requires strategy.Tiered? ==> TierOf(a, strategy.tiers) == TierOf(b, strategy.tiers)
    ensures LabelLe(strategy, a, b) && !LabelLe(strategy, b, a)
  {
    hide NumberOf, TierOf;
  }

  /** Numeric `desc` reverses `asc` exactly between labels whose numbers differ. */
  lemma NumericReverses(a: string, b: string)
    requires a != b
    ensures (NumericLe(a, b, true) <==> NumericLe(b, a, false)) <==>
      NumberOf(a).Some? && NumberOf(b).Some? && NumberOf(a) != NumberOf(b)
  {
    hide NumberOf, StrLe;
    StrLeTotal(a, b);
  }

  /** Lexical `desc` reverses `asc` exactly between labels neither of which is a prefix of the other. */
  lemma {:induction false} LexicalReverses(a: string, b: string)
    requires a != b
    ensures (NegatedLe(a, b) <==> StrLe(b, a)) <==> !(a <= b) && !(b <= a)
  {
    if a != "" && b != "" && a[0] == b[0] {
      assert a == [a[0]] + a[1..] && b == [b[0]] + b[1..];
      LexicalReverses(a[1..], b[1..]);
      assert a <= b <==> a[1..] <= b[1..];
      assert b <= a <==> b[1..] <= a[1..];
    }
  }

  // ----- the table ---------------------------------------------------------------------------------

  datatype Candidate = Candidate(name: string, labels: map<string, string>, score: Option<real>, source: string)

  datatype Entry = Entry(entrant: string, value: string, local: Option<real>, source: string)

  /** A fixed reference row of the spec, possibly marked as baseline. */
  datatype Extra = Extra(entry: Entry, baseline: bool)

  datatype Row = Row(rank: nat, isBaseline: bool, entry: Entry)

  /** The candidates with a non-empty label, in creation order. */
  function Labelled(cands: seq<Candidate>, key: string): seq<Entry> {
    if cands == [] then []
    else
      var before, c := Labelled(cands[..|cands| - 1], key), cands[|cands| - 1];
      if key in c.labels && c.labels[key] != "" then before + [Entry(c.name, c.labels[key], c.score, c.source)]
      else before
  }

  function Entries(extras: seq<Extra>): seq<Entry> {
    seq(|extras|, i requires 0 <= i < |extras| => extras[i].entry)
  }

  function Baselines(names: set<string>, extras: seq<Extra>): set<string> {
    names + set e | e in extras && e.baseline :: e.entry.entrant
  }

  function RowLe(strategy: Strategy): (Entry, Entry) -> bool {
    (a: Entry, b: Entry) => LabelLe(strategy, a.value, b.value)
  }

  predicate IsRanked(rows: seq<Row>, entries: seq<Entry>, baselines: set<string>) {
    |rows| == |entries| &&
    forall i :: 0 <= i < |rows| ==> rows[i] == Row(i + 1, entries[i].entrant in baselines, entries[i])
  }

  method Leaderboard(cands: seq<Candidate>, key: string, extras: seq<Extra>, names: set<string>, strategy: Strategy)
    returns (rows: seq<Row>)
    ensures IsRanked(rows, Sorted(Labelled(cands, key) + Entries(extras), RowLe(strategy)), Baselines(names, extras))
  {
    var data: seq<Entry> := [];
    for i := 0 to |cands|
      invariant data == Labelled(cands[..i], key)
    {
      assert cands[..i + 1][..i] == cands[..i];
      var c := cands[i];
      if key in c.labels && c.labels[key] != "" {
        data := data + [Entry(c.name, c.labels[key], c.score, c.source)];
      }
    }
    assert cands[..|cands|] == cands;
    var baselines := names;
    for i := 0 to |extras|
      invariant data == Labelled(cands, key) + Entries(extras)[..i]
      invariant baselines == Baselines(names, extras[..i])
    {
      data := data + [extras[i].entry];
      assert extras[..i + 1] == extras[..i] + [extras[i]];
      if extras[i].baseline {
        baselines := baselines + {extras[i].entry.entrant};
      }
    }
    assert extras[..|extras|] == extras && Entries(extras)[..|extras|] == Entries(extras);
    data := Sorted(data, RowLe(strategy));
    rows := [];
    for i := 0 to |data|
      invariant IsRanked(rows, data[..i], baselines)
    {
      rows := rows + [Row(i + 1, data[i].entrant in baselines, data[i])];
    }
    assert data[..|data|] == data;
  }

  /** The table lists every labelled candidate and reference once, by label, ties in given order. */
  lemma Ranks(cands: seq<Candidate>, key: string, extras: seq<Extra>, strategy: Strategy)
    ensures var all := Labelled(cands, key) + Entries(extras);
      var table := Sorted(all, RowLe(strategy));
      && multiset(table) == multiset(all)
      && (forall i, j :: 0 <= i < j < |table| ==> LabelLe(strategy, table[i].value, table[j].value))
      && (forall e :: Ties(table, e, RowLe(strategy)) == Ties(all, e, RowLe(strategy)))
  {
    RowsOrdered(strategy);
    SortsStably(Labelled(cands, key) + Entries(extras), RowLe(strategy));
  }

  lemma RowsOrdered(strategy: Strategy)
    ensures TotalPreorder(RowLe(strategy))
  {
    hide LabelLe;
    forall a, b ensures RowLe(strategy)(a, b) || RowLe(strategy)(b, a) {
      LabelsTotal(strategy, a.value, b.value);
    }
    forall a, b, c | RowLe(strategy)(a, b) && RowLe(strategy)(b, c) ensures RowLe(strategy)(a, c) {
      LabelsTransitive(strategy, a.value, b.value, c.value);
    }
  }

  /** Once a row has no number, no later row of a numeric table has one. */
  lemma NumberedFirst(cands: seq<Candidate>, key: string, extras: seq<Extra>, descending: bool, i: nat, j: nat)
    requires var table := Sorted(Labelled(cands, key) + Entries(extras), RowLe(Numeric(descending)));
      i < j < |table| && NumberOf(table[i].value).None?
    ensures var table := Sorted(Labelled(cands, key) + Entries(extras), RowLe(Numeric(descending)));
      NumberOf(table[j].value).None?
  {
    Ranks(cands, key, extras, Numeric(descending));
    var table := Sorted(Labelled(cands, key) + Entries(extras), RowLe(Numeric(descending)));
    if NumberOf(table[j].value).Some? {
      NoNumberLast(Numeric(descending), table[j].value, table[i].value);
    }
  }
}
