/** The drug-interaction check (components/interaction-checker.tsx): every
    unordered pair of medications whose lower-cased names form a pair of
    the interaction table, in either order, is reported once, with the two
    names as they were entered. */
module Interactions {
  import opened Domain
  import Seqs
  import Text

  datatype Severity = High | Medium | Low

  datatype DrugInteraction = DrugInteraction(
    medication1: string,
    medication2: string,
    severity: Severity,
    description: string,
    recommendation: string)

  /** The interaction table: pairs of lower-case drug names. */
  const KnownInteractions: seq<DrugInteraction> := [
    DrugInteraction("aspirin", "warfarin", High,
                    "Increased risk of bleeding when taken together",
                    "Monitor INR levels closely and consult your doctor"),
    DrugInteraction("metformin", "alcohol", Medium,
                    "May increase risk of lactic acidosis",
                    "Limit alcohol consumption and monitor for symptoms"),
    DrugInteraction("lisinopril", "potassium", Medium,
                    "May cause hyperkalemia (high potassium levels)",
                    "Monitor potassium levels regularly")
  ]

  /** The entry names the two drugs, in either order. */
  predicate Matches(entry: DrugInteraction, a: string, b: string)
  {
    (entry.medication1 == a && entry.medication2 == b) || (entry.medication1 == b && entry.medication2 == a)
  }

  /** `knownInteractions.find(...)`: the first entry naming both drugs. */
  function FindInteraction(table: seq<DrugInteraction>, a: string, b: string): Option<DrugInteraction>
  {
    if table == [] then None
    else if Matches(table[0], a, b) then Some(table[0])
    else FindInteraction(table[1..], a, b)
  }

  /** The lookup finds nothing exactly when no entry names the two drugs,
      and otherwise finds the first entry that does. */
  lemma {:induction false} FindInteractionSpec(table: seq<DrugInteraction>, a: string, b: string)
    ensures var r := FindInteraction(table, a, b);
            && (r.None? <==> forall k :: 0 <= k < |table| ==> !Matches(table[k], a, b))
            && (r.Some? ==> exists k :: 0 <= k < |table| && table[k] == r.value && Matches(table[k], a, b)
                                        && forall l :: 0 <= l < k ==> !Matches(table[l], a, b))
  {
    if table != [] && !Matches(table[0], a, b) {
      FindInteractionSpec(table[1..], a, b);
      assert forall l :: 1 <= l < |table| ==> table[l] == table[1..][l - 1];
      var r := FindInteraction(table, a, b);
      if r.Some? {
        var k :| 0 <= k < |table| - 1 && table[1..][k] == r.value && Matches(table[1..][k], a, b)
                 && forall l :: 0 <= l < k ==> !Matches(table[1..][l], a, b);
        assert table[k + 1] == r.value && Matches(table[k + 1], a, b);
      }
    }
  }

  /** The lookup does not depend on which drug is named first. */
  lemma {:induction false} FindSymmetric(table: seq<DrugInteraction>, a: string, b: string)
    ensures FindInteraction(table, a, b) == FindInteraction(table, b, a)
  {
    if table != [] {
      FindSymmetric(table[1..], a, b);
    }
  }

  /** The loop body for medications `i` and `j`: look up their lower-cased
      names and, on a hit, report the entry under the names as entered. */
  function Check(table: seq<DrugInteraction>, meds: seq<Medication>, i: nat, j: nat): (r: Option<DrugInteraction>)
    requires i < j < |meds|
    ensures r.Some? ==> r.value.medication1 == meds[i].name && r.value.medication2 == meds[j].name
  {
    var found := FindInteraction(table, Text.ToLower(meds[i].name), Text.ToLower(meds[j].name));
    if found.Some? then Some(found.value.(medication1 := meds[i].name, medication2 := meds[j].name)) else None
  }

  /** `Check` as a function of the pair, nothing outside the pairs i < j. */
  function Lookup(table: seq<DrugInteraction>, meds: seq<Medication>): (nat, nat) -> Option<DrugInteraction>
  {
    (i: nat, j: nat) => if i < j < |meds| then Check(table, meds, i, j) else None
  }

  function AsList(r: Option<DrugInteraction>): seq<DrugInteraction>
  {
    if r.Some? then [r.value] else []
  }

  /** The reports `check` gives for `i` paired with `i + 1 .. j - 1`, in
      order. */
  function Row(check: (nat, nat) -> Option<DrugInteraction>, i: nat, j: nat): seq<DrugInteraction>
    requires i < j
    decreases j
  {
    if j == i + 1 then [] else Row(check, i, j - 1) + AsList(check(i, j - 1))
  }

  /** The reports for every pair of `0 .. n - 1` whose first element comes
      before `i`. */
  function Rows(check: (nat, nat) -> Option<DrugInteraction>, n: nat, i: nat): seq<DrugInteraction>
    requires i <= n
  {
    if i == 0 then [] else Rows(check, n, i - 1) + Row(check, i - 1, n)
  }

  /** What the checker lists for `meds`. */
  function Findings(table: seq<DrugInteraction>, meds: seq<Medication>): seq<DrugInteraction>
  {
    Rows(Lookup(table, meds), |meds|, |meds|)
  }

  /** The `interactions` memo: the nested loop over the pairs i < j,
      looking each pair up in `table` (the app passes `KnownInteractions`). */
  method FindInteractions(table: seq<DrugInteraction>, meds: seq<Medication>) returns (found: seq<DrugInteraction>)
    ensures found == Findings(table, meds)
  {
    found := [];
    var i := 0;
    while i < |meds|
      invariant 0 <= i <= |meds|
      invariant found == Rows(Lookup(table, meds), |meds|, i)
    {
      var row := ScanRow(table, meds, i);
      RowsNext(Lookup(table, meds), |meds|, i);
      found := found + row;
      i := i + 1;
    }
  }

  /** The inner loop: the reports for medication `i` paired with every
      later one. */
  method ScanRow(table: seq<DrugInteraction>, meds: seq<Medication>, i: nat) returns (row: seq<DrugInteraction>)
    requires i < |meds|
    ensures row == Row(Lookup(table, meds), i, |meds|)
  {
    row := [];
    var j := i + 1;
    while j < |meds|
      invariant i + 1 <= j <= |meds|
      invariant row == Row(Lookup(table, meds), i, j)
    {
      var interaction := Check(table, meds, i, j);
      assert Lookup(table, meds)(i, j) == interaction;
      RowNext(Lookup(table, meds), i, j);
      if interaction.Some? {
        row := row + [interaction.value];
      }
      j := j + 1;
    }
  }

  lemma {:induction false} RowNext(check: (nat, nat) -> Option<DrugInteraction>, i: nat, j: nat)
    requires i < j
    ensures Row(check, i, j + 1) == Row(check, i, j) + AsList(check(i, j))
  {
  }

  lemma {:induction false} RowsNext(check: (nat, nat) -> Option<DrugInteraction>, n: nat, i: nat)
    requires i < n
    ensures Rows(check, n, i + 1) == Rows(check, n, i) + Row(check, i, n)
  {
  }

  /** `x` is what `check` reports for the pair (a, b) of `0 .. n - 1`. */
  predicate ReportedAt(check: (nat, nat) -> Option<DrugInteraction>, n: nat, a: nat, b: nat, x: DrugInteraction)
  {
    a < b < n && check(a, b) == Some(x)
  }

  /** A report is in row `i` up to `j` when it is in the row up to `j - 1`
      or is the report of the pair (i, j - 1). */
  lemma {:induction false} RowSplit(check: (nat, nat) -> Option<DrugInteraction>, i: nat, j: nat, x: DrugInteraction)
    requires i + 1 < j
    ensures x in Row(check, i, j) <==> x in Row(check, i, j - 1) || check(i, j - 1) == Some(x)
  {
    assert Row(check, i, j) == Row(check, i, j - 1) + AsList(check(i, j - 1));
  }

  /** A report is listed up to `i` when it is listed up to `i - 1` or is in
      row `i - 1`. */
  lemma {:induction false} RowsSplit(check: (nat, nat) -> Option<DrugInteraction>, n: nat, i: nat, x: DrugInteraction)
    requires 0 < i <= n
    ensures x in Rows(check, n, i) <==> x in Rows(check, n, i - 1) || x in Row(check, i - 1, n)
  {
    assert Rows(check, n, i) == Rows(check, n, i - 1) + Row(check, i - 1, n);
  }

  /** A report in row `i` up to `j` is the report of one of its pairs. */
  lemma {:induction false} RowListed(check: (nat, nat) -> Option<DrugInteraction>, n: nat, i: nat, j: nat, x: DrugInteraction)
    requires i < j <= n && x in Row(check, i, j)
    ensures exists b :: i < b < j && ReportedAt(check, n, i, b, x)
    decreases j
  {
    assert j > i + 1;
    RowSplit(check, i, j, x);
    if x in Row(check, i, j - 1) {
      RowListed(check, n, i, j - 1, x);
      var b :| i < b < j - 1 && ReportedAt(check, n, i, b, x);
      assert i < b < j;
    } else {
      assert ReportedAt(check, n, i, j - 1, x);
    }
  }

  /** Row `i` up to `j` starts with row `i` up to any earlier `k`. */
  lemma {:induction false} RowPrefix(check: (nat, nat) -> Option<DrugInteraction>, i: nat, k: nat, j: nat)
    requires i < k <= j
    ensures Row(check, i, k) <= Row(check, i, j)
    decreases j
  {
    if k < j {
      RowPrefix(check, i, k, j - 1);
      assert Row(check, i, j) == Row(check, i, j - 1) + AsList(check(i, j - 1));
      Seqs.PrefixConcat(Row(check, i, k), Row(check, i, j - 1), AsList(check(i, j - 1)));
    }
  }

  /** The report of a pair (i, b) with b before `j` is in row `i`. */
  lemma {:induction false} RowHas(check: (nat, nat) -> Option<DrugInteraction>, i: nat, b: nat, j: nat, x: DrugInteraction)
    requires i < b < j && check(i, b) == Some(x)
    ensures x in Row(check, i, j)
  {
    RowSplit(check, i, b + 1, x);
    RowPrefix(check, i, b + 1, j);
    Seqs.InPrefix(x, Row(check, i, b + 1), Row(check, i, j));
  }

  /** A listed report is the report of a pair whose first element comes
      before `i`. */
  lemma {:induction false} RowsListed(check: (nat, nat) -> Option<DrugInteraction>, n: nat, i: nat, x: DrugInteraction)
    requires i <= n && x in Rows(check, n, i)
    ensures exists a: nat, b: nat :: a < i && ReportedAt(check, n, a, b, x)
  {
    assert i > 0;
    var k: nat := i - 1;
    RowsSplit(check, n, i, x);
    if x in Rows(check, n, k) {
      RowsListed(check, n, k, x);
      var a: nat, b: nat :| a < k && ReportedAt(check, n, a, b, x);
      assert a < i;
    } else {
      RowListed(check, n, k, n, x);
      var b: nat :| k < b < n && ReportedAt(check, n, k, b, x);
    }
  }


  /** The reports listed up to `i` start the reports listed up to any
      later `k`. */
  lemma {:induction false} RowsPrefix(check: (nat, nat) -> Option<DrugInteraction>, n: nat, i: nat, k: nat)
    requires i <= k <= n
    ensures Rows(check, n, i) <= Rows(check, n, k)
  {
    if i < k {
      RowsPrefix(check, n, i, k - 1);
      assert Rows(check, n, k) == Rows(check, n, k - 1) + Row(check, k - 1, n);
      Seqs.PrefixConcat(Rows(check, n, i), Rows(check, n, k - 1), Row(check, k - 1, n));
    }
  }

  /** The report of a pair (a, b) with a before `i` is listed. */
  lemma {:induction false} RowsHas(check: (nat, nat) -> Option<DrugInteraction>, n: nat, a: nat, b: nat, i: nat, x: DrugInteraction)
    requires a < i <= n && ReportedAt(check, n, a, b, x)
    ensures x in Rows(check, n, i)
  {
    RowHas(check, a, b, n, x);
    RowsSplit(check, n, a + 1, x);
    RowsPrefix(check, n, a + 1, i);
    Seqs.InPrefix(x, Rows(check, n, a + 1), Rows(check, n, i));
  }

  /** A report is listed exactly when it is the report of a pair whose
      first element comes before `i`. */
  lemma {:induction false} RowsMembers(check: (nat, nat) -> Option<DrugInteraction>, n: nat, i: nat, x: DrugInteraction)
    requires i <= n
    ensures x in Rows(check, n, i) <==> exists a: nat, b: nat :: a < i && ReportedAt(check, n, a, b, x)
  {
    if x in Rows(check, n, i) {
      RowsListed(check, n, i, x);
    }
    if exists a: nat, b: nat :: a < i && ReportedAt(check, n, a, b, x) {
      var a: nat, b: nat :| a < i && ReportedAt(check, n, a, b, x);
      RowsHas(check, n, a, b, i, x);
    }
  }

  lemma {:induction false} RowLength(check: (nat, nat) -> Option<DrugInteraction>, i: nat, j: nat)
    requires i < j
    ensures |Row(check, i, j)| <= j - i - 1
    decreases j
  {
    if j > i + 1 {
      RowLength(check, i, j - 1);
    }
  }

  /** The number of pairs (a, b) with a < i and a < b < m. */
  function PairCount(i: nat, m: nat): nat
  {
    if i == 0 then 0 else PairCount(i - 1, m) + (if i <= m then m - i else 0)
  }

  lemma {:induction false} PairCountClosed(i: nat, m: nat)
    requires i <= m
    ensures 2 * PairCount(i, m) == i * (2 * m - i - 1)
  {
    if i > 0 {
      PairCountClosed(i - 1, m);
      PairsBound(i, m);
    }
  }

  lemma {:induction false} PairsBound(i: int, m: int)
    ensures (i - 1) * (2 * m - (i - 1) - 1) + 2 * (m - i) == i * (2 * m - i - 1)
  {
  }

  lemma {:induction false} RowsLength(check: (nat, nat) -> Option<DrugInteraction>, n: nat, i: nat)
    requires i <= n
    ensures |Rows(check, n, i)| <= PairCount(i, n)
  {
    if i > 0 {
      assert Rows(check, n, i) == Rows(check, n, i - 1) + Row(check, i - 1, n);
      RowsLength(check, n, i - 1);
      RowLength(check, i - 1, n);
      assert PairCount(i, n) == PairCount(i - 1, n) + (n - i);
    }
  }

  /** What the loop reports: one report per interacting pair i < j, naming
      the two medications as entered, with the table entry's severity and
      advice; at most one report per unordered pair. */
  lemma {:induction false} FindingsSpec(table: seq<DrugInteraction>, meds: seq<Medication>, x: DrugInteraction)
    ensures x in Findings(table, meds) <==> exists a, b :: 0 <= a < b < |meds| && Check(table, meds, a, b) == Some(x)
    ensures 2 * |Findings(table, meds)| <= |meds| * (|meds| - 1)
    ensures x in Findings(table, meds) ==>
      exists e :: e in table && x == e.(medication1 := x.medication1, medication2 := x.medication2)
  {
    var check, n := Lookup(table, meds), |meds|;
    RowsMembers(check, n, n, x);
    RowsLength(check, n, n);
    PairCountClosed(n, n);
    if x in Findings(table, meds) {
      var a: nat, b: nat :| a < n && ReportedAt(check, n, a, b, x);
      assert Check(table, meds, a, b) == Some(x);
      FindInteractionSpec(table, Text.ToLower(meds[a].name), Text.ToLower(meds[b].name));
      var e := FindInteraction(table, Text.ToLower(meds[a].name), Text.ToLower(meds[b].name)).value;
      assert e in table;
    }
    if exists a, b :: 0 <= a < b < |meds| && Check(table, meds, a, b) == Some(x) {
      var a, b :| 0 <= a < b < |meds| && Check(table, meds, a, b) == Some(x);
      assert ReportedAt(check, n, a, b, x);
    }
  }

  function SeverityIs(s: Severity): DrugInteraction -> bool
  {
    (x: DrugInteraction) => x.severity == s
  }

  /** `highRiskCount`. */
  function HighRiskCount(found: seq<DrugInteraction>): nat
  {
    Seqs.Count(found, SeverityIs(High))
  }

  /** `mediumRiskCount`. */
  function MediumRiskCount(found: seq<DrugInteraction>): nat
  {
    Seqs.Count(found, SeverityIs(Medium))
  }

  /** High and medium findings together never outnumber the findings. */
  lemma {:induction false} RiskCountsBound(found: seq<DrugInteraction>)
    ensures HighRiskCount(found) + MediumRiskCount(found) <= |found|
  {
    if found != [] {
      RiskCountsBound(found[1..]);
    }
  }

  /** Without low-severity findings, the two counts cover every finding. */
  lemma {:induction false} CountBySeverity(found: seq<DrugInteraction>)
    requires forall i :: 0 <= i < |found| ==> found[i].severity != Low
    ensures HighRiskCount(found) + MediumRiskCount(found) == |found|
  {
    if found != [] {
      CountBySeverity(found[1..]);
    }
  }

  /** The table has no low-severity entry, so every report is counted as
      high or medium risk. */
  lemma {:induction false} RiskCountsCoverAll(meds: seq<Medication>)
    ensures var found := Findings(KnownInteractions, meds);
            HighRiskCount(found) + MediumRiskCount(found) == |found|
  {
    var table := KnownInteractions;
    var found := Findings(table, meds);
    forall i | 0 <= i < |found| ensures found[i].severity != Low {
      FindingsSpec(table, meds, found[i]);
    }
    CountBySeverity(found);
  }

  /** The two-medication list reports exactly its one pair's finding. */
  lemma {:induction false} PairRows(table: seq<DrugInteraction>, meds: seq<Medication>)
    requires |meds| == 2
    ensures Findings(table, meds) == AsList(Check(table, meds, 0, 1))
  {
    var check := Lookup(table, meds);
    assert Rows(check, 2, 2) == Rows(check, 2, 1) + Row(check, 1, 2);
    assert Rows(check, 2, 1) == Rows(check, 2, 0) + Row(check, 0, 2);
    assert Row(check, 0, 2) == Row(check, 0, 1) + AsList(check(0, 1));
  }

  /** The table's lookups for the scenario below. */
  lemma {:induction false} ScenarioLookups()
    ensures FindInteraction(KnownInteractions, "aspirin", "warfarin") == Some(KnownInteractions[0])
    ensures FindInteraction(KnownInteractions, "warfarin", "aspirin") == Some(KnownInteractions[0])
    ensures FindInteraction(KnownInteractions, "aspirin", "ibuprofen") == None
    ensures KnownInteractions[0].severity == High
  {
  }

  /** The check of a two-medication list, from the lookup of its names. */
  lemma {:induction false} PairReport(table: seq<DrugInteraction>, meds: seq<Medication>, a: string, b: string)
    requires |meds| == 2 && Text.ToLower(meds[0].name) == a && Text.ToLower(meds[1].name) == b
    ensures var found := FindInteraction(table, a, b);
            Findings(table, meds) == if found.Some? then [found.value.(medication1 := meds[0].name, medication2 := meds[1].name)] else []
  {
    PairRows(table, meds);
  }

  /** Two medications entered under any capitalisation of "aspirin" and
      "warfarin" give one high-risk report naming them as entered. */
  lemma {:induction false} AspirinWarfarin(meds: seq<Medication>)
    requires |meds| == 2 && Text.ToLower(meds[0].name) == "aspirin" && Text.ToLower(meds[1].name) == "warfarin"
    ensures var found := Findings(KnownInteractions, meds);
            |found| == 1 && found[0].severity == High && HighRiskCount(found) == 1
            && found[0].medication1 == meds[0].name && found[0].medication2 == meds[1].name
  {
    ScenarioLookups();
    PairReport(KnownInteractions, meds, "aspirin", "warfarin");
    var found := Findings(KnownInteractions, meds);
    assert Seqs.Count(found, SeverityIs(High)) == 1 + Seqs.Count(found[1..], SeverityIs(High));
  }

  /** Listing the two the other way round reports the same interaction
      under the names in that order. */
  lemma {:induction false} WarfarinAspirin(meds: seq<Medication>)
    requires |meds| == 2 && Text.ToLower(meds[0].name) == "warfarin" && Text.ToLower(meds[1].name) == "aspirin"
    ensures var found := Findings(KnownInteractions, meds);
            |found| == 1 && found[0].severity == High
            && found[0].medication1 == meds[0].name && found[0].medication2 == meds[1].name
  {
    ScenarioLookups();
    PairReport(KnownInteractions, meds, "warfarin", "aspirin");
  }

  /** A pair the table does not list gives no report. */
  lemma {:induction false} AspirinIbuprofen(meds: seq<Medication>)
    requires |meds| == 2 && Text.ToLower(meds[0].name) == "aspirin" && Text.ToLower(meds[1].name) == "ibuprofen"
    ensures Findings(KnownInteractions, meds) == []
  {
    ScenarioLookups();
    PairReport(KnownInteractions, meds, "aspirin", "ibuprofen");
  }
}
