/** The cases and case_observations tables: fold, group or open an incident by similarity. */
module CaseLibrary {
  import opened Basics
  import opened Config
  import opened Similarity

  /** The canonical identity of an incident; sorted lists of the source are the collections they list. */
  datatype CaseKey = CaseKey(stressor: string, victims: set<string>, signal: string, kind: Option<string>, motif: multiset<Link>)

  datatype Incident = Incident(key: CaseKey, lead: Option<real>)

  datatype CaseRow = CaseRow(id: string, key: CaseKey, occurrences: nat, firstSeen: real, lastSeen: real,
                             lead: Option<real>, family: Option<string>)

  datatype Observation = Observation(at: real, caseId: string, incident: Incident)

  /** The cases in insertion order, and the log of observations. */
  datatype Library = Library(cases: seq<CaseRow>, log: seq<Observation>)

  datatype Register = Recurrence | Variant | Novel

  datatype Verdict = Verdict(caseId: string, family: string, register: Register, sim: real)

  type Hash = CaseKey -> string

  /** Distinct keys get distinct, non-empty ids. */
  ghost predicate GoodHash(h: Hash) {
    (forall k, l :: h(k) == h(l) ==> k == l) && (forall k :: h(k) != "")
  }

  function Print(k: CaseKey): Fingerprint {
    Fingerprint({k.stressor}, k.victims, (set m | m in k.motif), k.signal, k.kind)
  }

  function FamilyOf(row: CaseRow): string {
    if row.family.Some? && row.family.value != "" then row.family.value else row.id
  }

  // ---- Operations ----

  /** The first case of greatest similarity among the first n, none when no similarity is positive. */
  function Nearest(cases: seq<CaseRow>, f: Fingerprint, n: nat): (Option<nat>, real)
    requires n <= |cases|
  {
    if n == 0 then (None, 0.0)
    else
      var (best, sim) := Nearest(cases, f, n - 1);
      var s := Sim(f, Print(cases[n - 1].key));
      if s > sim then (Some(n - 1), s) else (best, sim)
  }

  /** The running mean over the occurrences, or whichever lead is known. */
  function NextLead(old_: Option<real>, occurrences: nat, lead: Option<real>): Option<real> {
    match (old_, lead)
    case (Some(o), Some(l)) => Some((Product(o, occurrences as real) + l) / (occurrences + 1) as real)
    case (_, None) => old_
    case (None, Some(_)) => lead
  }

  function Folded(row: CaseRow, inc: Incident, ts: real): CaseRow {
    row.(occurrences := row.occurrences + 1, lastSeen := ts, lead := NextLead(row.lead, row.occurrences, inc.lead))
  }

  function Opened(id: string, inc: Incident, family: string, ts: real): CaseRow {
    CaseRow(id, inc.key, 1, ts, ts, inc.lead, Some(family))
  }

  predicate HasId(cases: seq<CaseRow>, id: string) { exists i :: 0 <= i < |cases| && cases[i].id == id }

  /** INSERT OR IGNORE on the primary key. */
  function InsertOrIgnore(cases: seq<CaseRow>, row: CaseRow): seq<CaseRow> {
    if HasId(cases, row.id) then cases else cases + [row]
  }

  function VerdictOf(c: MemoryConfig, h: Hash, cases: seq<CaseRow>, inc: Incident): (v: Verdict) {
    var (best, sim) := Nearest(cases, Print(inc.key), |cases|);
    if best.Some? && best.value < |cases| && sim >= c.tauMerge
      then Verdict(cases[best.value].id, FamilyOf(cases[best.value]), Recurrence, sim)
    else if best.Some? && best.value < |cases| && sim >= c.tauFamily
      then Verdict(h(inc.key), FamilyOf(cases[best.value]), Variant, sim)
    else Verdict(h(inc.key), h(inc.key), Novel, sim)
  }

  function PromotedCases(c: MemoryConfig, h: Hash, cases: seq<CaseRow>, inc: Incident, ts: real): seq<CaseRow> {
    var (best, sim) := Nearest(cases, Print(inc.key), |cases|);
    var v := VerdictOf(c, h, cases, inc);
    if v.register == Recurrence && best.Some? && best.value < |cases|
      then cases[best.value := Folded(cases[best.value], inc, ts)]
    else InsertOrIgnore(cases, Opened(v.caseId, inc, v.family, ts))
  }

  function Promoted(c: MemoryConfig, h: Hash, lib: Library, inc: Incident, ts: real): Library {
    Library(PromotedCases(c, h, lib.cases, inc, ts),
            lib.log + [Observation(ts, VerdictOf(c, h, lib.cases, inc).caseId, inc)])
  }

  // ---- The search finds the nearest case ----

  lemma {:induction false} NearestIsBest(cases: seq<CaseRow>, f: Fingerprint, n: nat)
    requires n <= |cases|
    ensures var (best, sim) := Nearest(cases, f, n);
            && (best.None? ==> sim == 0.0)
            && (best.Some? ==> best.value < n && sim == Sim(f, Print(cases[best.value].key)) && sim > 0.0)
            && (forall i :: 0 <= i < n ==> Sim(f, Print(cases[i].key)) <= sim)
            && (best.Some? ==> forall i :: 0 <= i < best.value ==> Sim(f, Print(cases[i].key)) < sim)
  {
    if n > 0 {
      NearestIsBest(cases, f, n - 1);
      SimRange(f, Print(cases[n - 1].key));
    }
  }

  /** The links of a motif, however often each occurs. */
  ghost predicate SameLinks(k: CaseKey, l: CaseKey) { forall x :: x in k.motif <==> x in l.motif }

  ghost predicate NoCommonLink(k: CaseKey, l: CaseKey) { forall x :: !(x in k.motif && x in l.motif) }

  /** Two incidents are the same to the library when they agree on root, victims, signal, witness kind and links. */
  lemma SameToLibrary(k: CaseKey, l: CaseKey)
    ensures Sim(Print(k), Print(l)) == 1.0 <==>
              && k.stressor == l.stressor && k.victims == l.victims && SameLinks(k, l)
              && k.signal == l.signal && KindName(k.kind) == KindName(l.kind)
  {
    SimRange(Print(k), Print(l));
    if k.stressor == l.stressor { assert Print(k).stressors == Print(l).stressors; }
    if Print(k).stressors == Print(l).stressors { assert k.stressor in Print(l).stressors; }
    if SameLinks(k, l) { assert Print(k).motif == Print(l).motif; }
    if Print(k).motif == Print(l).motif {
      forall x ensures x in k.motif <==> x in l.motif { assert x in Print(k).motif <==> x in Print(l).motif; }
    }
  }

  /** What a difference costs: 0.2 for another root, 0.4 for other victims or for other links. */
  lemma DifferenceCosts(k: CaseKey, l: CaseKey)
    requires k.signal == l.signal && KindName(k.kind) == KindName(l.kind)
    requires k.victims != {} && l.victims != {} && k.motif != multiset{} && l.motif != multiset{}
    ensures k.stressor != l.stressor && k.victims == l.victims && SameLinks(k, l) ==> Sim(Print(k), Print(l)) == 0.8
    ensures k.stressor == l.stressor && k.victims !! l.victims && SameLinks(k, l) ==> Sim(Print(k), Print(l)) == 0.6
    ensures k.stressor == l.stressor && k.victims == l.victims && NoCommonLink(k, l) ==> Sim(Print(k), Print(l)) == 0.6
  {
    var f, g := Print(k), Print(l);
    var x :| x in k.motif;
    assert x in f.motif;
    assert f.stressors == {k.stressor} && g.stressors == {l.stressor};
    assert SameLinks(k, l) ==> f.motif == g.motif;
    assert NoCommonLink(k, l) ==> f.motif !! g.motif;
    FeatureWorth(f, g);
  }

  /** How near the incident is to case i. */
  ghost function Nearness(cases: seq<CaseRow>, inc: Incident, i: int): real
    requires 0 <= i < |cases|
  {
    Sim(Print(inc.key), Print(cases[i].key))
  }

  /** Case b is the first of the cases nearest to the incident. */
  ghost predicate IsNearest(cases: seq<CaseRow>, inc: Incident, b: int) {
    && 0 <= b < |cases|
    && (forall i :: 0 <= i < |cases| ==> Nearness(cases, inc, i) <= Nearness(cases, inc, b))
    && (forall i :: 0 <= i < b ==> Nearness(cases, inc, i) < Nearness(cases, inc, b))
  }

  /** The fields of a case that the incident opens. */
  ghost predicate IsOpened(row: CaseRow, id: string, inc: Incident, family: string, ts: real) {
    && row.id == id && row.key == inc.key && row.family == Some(family) && row.lead == inc.lead
    && row.occurrences == 1 && row.firstSeen == ts && row.lastSeen == ts
  }

  /** Nothing but the counter, the last time and the lead of the case changes when it absorbs an incident. */
  ghost predicate IsFolded(row: CaseRow, row': CaseRow, ts: real) {
    && row'.id == row.id && row'.key == row.key && row'.family == row.family && row'.firstSeen == row.firstSeen
    && row'.occurrences == row.occurrences + 1 && row'.lastSeen == ts
  }

  /** An incident within tau_merge of its nearest case is a recurrence of it, and changes that case alone. */
  lemma RecurrenceMeans(c: MemoryConfig, h: Hash, cases: seq<CaseRow>, inc: Incident, ts: real, b: nat)
    requires ValidConfig(c) && IsNearest(cases, inc, b) && Nearness(cases, inc, b) >= c.tauMerge
    ensures VerdictOf(c, h, cases, inc) == Verdict(cases[b].id, FamilyOf(cases[b]), Recurrence, Nearness(cases, inc, b))
    ensures var cases' := PromotedCases(c, h, cases, inc, ts);
            && |cases'| == |cases| && IsFolded(cases[b], cases'[b], ts)
            && forall i :: 0 <= i < |cases| && i != b ==> cases'[i] == cases[i]
  {
    NearestDecided(cases, inc, b);
  }

  /** The incident opens a case of its own behind the others, in the given family. */
  ghost predicate Opens(h: Hash, cases: seq<CaseRow>, cases': seq<CaseRow>, inc: Incident, family: string, ts: real) {
    |cases'| == |cases| + 1 && cases'[..|cases|] == cases && IsOpened(cases'[|cases|], h(inc.key), inc, family, ts)
  }

  /** One within tau_family of it only is a variant, and opens a case in its family. */
  lemma VariantMeans(c: MemoryConfig, h: Hash, cases: seq<CaseRow>, inc: Incident, ts: real, b: nat)
    requires ValidConfig(c) && GoodHash(h) && Identified(h, cases)
    requires IsNearest(cases, inc, b) && c.tauFamily <= Nearness(cases, inc, b) < c.tauMerge
    ensures VerdictOf(c, h, cases, inc) == Verdict(h(inc.key), FamilyOf(cases[b]), Variant, Nearness(cases, inc, b))
    ensures Opens(h, cases, PromotedCases(c, h, cases, inc, ts), inc, FamilyOf(cases[b]), ts)
  {
    NearestDecided(cases, inc, b);
    NeverIgnored(c, h, cases, inc);
  }

  /** One that is near no case is novel, and founds a family. */
  lemma NovelMeans(c: MemoryConfig, h: Hash, cases: seq<CaseRow>, inc: Incident, ts: real)
    requires ValidConfig(c) && GoodHash(h) && Identified(h, cases)
    requires forall i :: 0 <= i < |cases| ==> Nearness(cases, inc, i) < c.tauFamily
    ensures var v := VerdictOf(c, h, cases, inc); v.caseId == v.family == h(inc.key) && v.register == Novel
    ensures Opens(h, cases, PromotedCases(c, h, cases, inc, ts), inc, h(inc.key), ts)
  {
    NearestIsBest(cases, Print(inc.key), |cases|);
    var (best, sim) := Nearest(cases, Print(inc.key), |cases|);
    if best.Some? { assert Nearness(cases, inc, best.value) == sim; }
    NeverIgnored(c, h, cases, inc);
  }

  lemma NearestDecided(cases: seq<CaseRow>, inc: Incident, b: nat)
    requires IsNearest(cases, inc, b) && Nearness(cases, inc, b) > 0.0
    ensures Nearest(cases, Print(inc.key), |cases|) == (Some(b), Nearness(cases, inc, b))
  {
    NearestIsBest(cases, Print(inc.key), |cases|);
    var (best, sim) := Nearest(cases, Print(inc.key), |cases|);
    assert Nearness(cases, inc, b) <= sim;
    assert Nearness(cases, inc, best.value) == sim;
  }

  // ---- Invariants ----

  predicate Founder(row: CaseRow) { FamilyOf(row) == row.id }

  ghost function SimAt(cases: seq<CaseRow>, i: int, j: int): real
    requires 0 <= i < |cases| && 0 <= j < |cases|
  {
    Sim(Print(cases[i].key), Print(cases[j].key))
  }

  /** Each id is its key's hash, and no key is stored twice. */
  ghost predicate Identified(h: Hash, cases: seq<CaseRow>) {
    && (forall i :: 0 <= i < |cases| ==> cases[i].id == h(cases[i].key))
    && (forall i, j :: 0 <= i < j < |cases| ==> cases[i].key != cases[j].key)
  }

  /** No two cases are near enough to have been folded, and no two founders near enough to have been grouped. */
  ghost predicate Separated(c: MemoryConfig, cases: seq<CaseRow>) {
    forall i, j :: 0 <= i < j < |cases| ==>
      && SimAt(cases, i, j) < c.tauMerge
      && (Founder(cases[i]) && Founder(cases[j]) ==> SimAt(cases, i, j) < c.tauFamily)
  }

  /** The family of case i was founded by case j. */
  ghost predicate FoundedBy(cases: seq<CaseRow>, i: int, j: int) {
    0 <= j <= i < |cases| && Founder(cases[j]) && cases[j].id == FamilyOf(cases[i])
  }

  /** Case i is a variant of the earlier case j of its family. */
  ghost predicate VariantOf(c: MemoryConfig, cases: seq<CaseRow>, i: int, j: int) {
    0 <= j < i < |cases| && FamilyOf(cases[j]) == FamilyOf(cases[i]) && c.tauFamily <= SimAt(cases, j, i) < c.tauMerge
  }

  ghost predicate HasFounder(cases: seq<CaseRow>, i: int) { exists j :: FoundedBy(cases, i, j) }

  ghost predicate HasNeighbour(c: MemoryConfig, cases: seq<CaseRow>, i: int) { exists j :: VariantOf(c, cases, i, j) }

  /** Case i belongs to a founded family, as its founder or near an earlier case of it. */
  ghost predicate GroupedAt(c: MemoryConfig, cases: seq<CaseRow>, i: int) {
    0 <= i < |cases| && HasFounder(cases, i) && (Founder(cases[i]) || HasNeighbour(c, cases, i))
  }

  ghost predicate Grouped(c: MemoryConfig, cases: seq<CaseRow>) {
    forall i :: 0 <= i < |cases| ==> GroupedAt(c, cases, i)
  }

  /** The leads of a case's observations, in order. */
  ghost function LeadsOf(log: seq<Observation>, id: string): seq<Option<real>> {
    if log == [] then []
    else
      var o := log[|log| - 1];
      LeadsOf(log[..|log| - 1], id) + (if o.caseId == id then [o.incident.lead] else [])
  }

  ghost function SumLeads(leads: seq<Option<real>>): real {
    if leads == [] then 0.0
    else SumLeads(leads[..|leads| - 1]) + (if leads[|leads| - 1].Some? then leads[|leads| - 1].value else 0.0)
  }

  ghost predicate SomeAtMost(leads: seq<Option<real>>, x: real) { exists l :: l in leads && l.Some? && l.value <= x }

  ghost predicate SomeAtLeast(leads: seq<Option<real>>, x: real) { exists l :: l in leads && l.Some? && l.value >= x }

  /** Known iff some lead is; within their range; and their mean when every lead is known. */
  ghost predicate LeadOk(lead: Option<real>, leads: seq<Option<real>>) {
    && (lead.None? <==> forall l :: l in leads ==> l.None?)
    && (lead.Some? ==> SomeAtMost(leads, lead.value) && SomeAtLeast(leads, lead.value))
    && (lead.Some? && (forall l :: l in leads ==> l.Some?) ==> Product(lead.value, |leads| as real) == SumLeads(leads))
  }

  /** Case row summarises the observations logged under its id. */
  ghost predicate Summarises(row: CaseRow, leads: seq<Option<real>>) {
    row.occurrences == |leads| >= 1 && LeadOk(row.lead, leads)
  }

  /** A case counts its observations, and summarises their leads. */
  ghost predicate Counted(lib: Library) {
    forall i :: 0 <= i < |lib.cases| ==> Summarises(lib.cases[i], LeadsOf(lib.log, lib.cases[i].id))
  }

  /** Observation o was folded into, or opened, case i. */
  ghost predicate Filed(c: MemoryConfig, cases: seq<CaseRow>, o: Observation, i: int) {
    0 <= i < |cases| && cases[i].id == o.caseId && Sim(Print(o.incident.key), Print(cases[i].key)) >= c.tauMerge
  }

  ghost predicate Logged(c: MemoryConfig, lib: Library) {
    forall o :: o in lib.log ==> exists i :: Filed(c, lib.cases, o, i)
  }

  ghost function TotalOccurrences(cases: seq<CaseRow>): nat {
    if cases == [] then 0 else TotalOccurrences(cases[..|cases| - 1]) + cases[|cases| - 1].occurrences
  }

  ghost predicate LibraryOk(c: MemoryConfig, h: Hash, lib: Library) {
    CasesOk(c, h, lib.cases) && FilesOk(c, lib)
  }

  ghost predicate CasesOk(c: MemoryConfig, h: Hash, cases: seq<CaseRow>) {
    Identified(h, cases) && Separated(c, cases) && Grouped(c, cases)
  }

  ghost predicate FilesOk(c: MemoryConfig, lib: Library) {
    Counted(lib) && Logged(c, lib) && TotalOccurrences(lib.cases) == |lib.log|
  }

  // ---- What an incident does ----

  lemma SamePrint(k: CaseKey)
    ensures Sim(Print(k), Print(k)) == 1.0
  {
    SimRange(Print(k), Print(k));
  }

  /** A new id is never taken: a case with the same key would have absorbed the incident. */
  lemma NeverIgnored(c: MemoryConfig, h: Hash, cases: seq<CaseRow>, inc: Incident)
    requires ValidConfig(c) && GoodHash(h) && Identified(h, cases)
    requires VerdictOf(c, h, cases, inc).register != Recurrence
    ensures !HasId(cases, h(inc.key))
    ensures forall i :: 0 <= i < |cases| ==> cases[i].key != inc.key && Sim(Print(inc.key), Print(cases[i].key)) < c.tauMerge
  {
    NearestIsBest(cases, Print(inc.key), |cases|);
    SamePrint(inc.key);
  }

  lemma NoTwins(c: MemoryConfig, cases: seq<CaseRow>, i: int, j: int)
    requires Separated(c, cases) && 0 <= i < |cases| && 0 <= j < |cases|
    requires SimAt(cases, i, j) >= c.tauMerge && SimAt(cases, j, i) >= c.tauMerge
    ensures i == j
  {
  }

  /** An incident whose key is stored folds into exactly that case, with similarity 1. */
  lemma SameKeyFolds(c: MemoryConfig, h: Hash, cases: seq<CaseRow>, inc: Incident, i: nat)
    requires ValidConfig(c) && GoodHash(h) && Identified(h, cases) && Separated(c, cases)
    requires i < |cases| && cases[i].key == inc.key
    ensures VerdictOf(c, h, cases, inc) == Verdict(cases[i].id, FamilyOf(cases[i]), Recurrence, 1.0)
    ensures forall ts :: PromotedCases(c, h, cases, inc, ts) == cases[i := Folded(cases[i], inc, ts)]
  {
    var f := Print(inc.key);
    NearestIsBest(cases, f, |cases|);
    SamePrint(inc.key);
    var (best, sim) := Nearest(cases, f, |cases|);
    var b := best.value;
    SimRange(f, Print(cases[b].key));
    assert sim == 1.0;
    SimRange(Print(cases[b].key), Print(cases[i].key));
    NoTwins(c, cases, b, i);
  }

  // ---- Folding keeps the library in order ----

  /** The first |cases| rows agree on id, key and family. */
  ghost predicate Extends(cases: seq<CaseRow>, cases': seq<CaseRow>) {
    |cases| <= |cases'| && forall i :: 0 <= i < |cases| ==>
      cases'[i].id == cases[i].id && cases'[i].key == cases[i].key && cases'[i].family == cases[i].family
  }

  /** The tables differ only in counters and summaries. */
  ghost predicate SameCases(cases: seq<CaseRow>, cases': seq<CaseRow>) {
    |cases| == |cases'| && Extends(cases, cases')
  }

  lemma FoldIsSame(cases: seq<CaseRow>, b: nat, inc: Incident, ts: real)
    requires b < |cases|
    ensures SameCases(cases, cases[b := Folded(cases[b], inc, ts)])
  {
  }

  lemma SameCasesIdentified(h: Hash, cases: seq<CaseRow>, cases': seq<CaseRow>)
    requires SameCases(cases, cases') && Identified(h, cases)
    ensures Identified(h, cases')
  {
  }

  lemma SameCasesSeparated(c: MemoryConfig, cases: seq<CaseRow>, cases': seq<CaseRow>)
    requires SameCases(cases, cases') && Separated(c, cases)
    ensures Separated(c, cases')
  {
  }

  lemma FounderKept(cases: seq<CaseRow>, cases': seq<CaseRow>, i: int)
    requires Extends(cases, cases') && HasFounder(cases, i)
    ensures HasFounder(cases', i)
  {
    var j :| FoundedBy(cases, i, j);
    assert FoundedBy(cases', i, j);
  }

  lemma NeighbourKept(c: MemoryConfig, cases: seq<CaseRow>, cases': seq<CaseRow>, i: int)
    requires Extends(cases, cases') && HasNeighbour(c, cases, i)
    ensures HasNeighbour(c, cases', i)
  {
    var j :| VariantOf(c, cases, i, j);
    assert SimAt(cases', j, i) == SimAt(cases, j, i);
    assert VariantOf(c, cases', i, j);
  }

  lemma SameCasesGrouped(c: MemoryConfig, cases: seq<CaseRow>, cases': seq<CaseRow>)
    requires SameCases(cases, cases') && Grouped(c, cases)
    ensures Grouped(c, cases')
  {
    forall i | 0 <= i < |cases'| ensures GroupedAt(c, cases', i) {
      assert GroupedAt(c, cases, i);
      FounderKept(cases, cases', i);
      if !Founder(cases[i]) { NeighbourKept(c, cases, cases', i); }
    }
  }

  lemma RunningMean(old_: real, n: real, lead: real, sum: real)
    requires n >= 1.0
    ensures var m := (Product(old_, n) + lead) / (n + 1.0);
            && Min(old_, lead) <= m <= Max(old_, lead)
            && (Product(old_, n) == sum ==> Product(m, n + 1.0) == sum + lead)
  {
  }

  lemma LeadStep(old_: Option<real>, leads: seq<Option<real>>, lead: Option<real>)
    requires |leads| >= 1 && LeadOk(old_, leads)
    ensures LeadOk(NextLead(old_, |leads|, lead), leads + [lead])
  {
    var leads', next := leads + [lead], NextLead(old_, |leads|, lead);
    assert leads'[..|leads'| - 1] == leads && leads'[|leads|] == lead;
    assert forall l :: l in leads' <==> l in leads || l == lead;
    if old_.Some? && lead.Some? {
      RunningMean(old_.value, |leads| as real, lead.value, SumLeads(leads));
      assert next.Some?;
      LowWitness(leads, old_.value, lead.value, next.value);
      HighWitness(leads, old_.value, lead.value, next.value);
    } else if lead.None? {
      assert lead in leads';
    } else {
      assert leads[0] in leads;
    }
  }

  lemma LowWitness(leads: seq<Option<real>>, old_: real, lead: real, m: real)
    requires SomeAtMost(leads, old_) && Min(old_, lead) <= m
    ensures SomeAtMost(leads + [Some(lead)], m)
  {
  }

  lemma HighWitness(leads: seq<Option<real>>, old_: real, lead: real, m: real)
    requires SomeAtLeast(leads, old_) && m <= Max(old_, lead)
    ensures SomeAtLeast(leads + [Some(lead)], m)
  {
  }

  lemma {:induction false} TotalUpdated(cases: seq<CaseRow>, i: nat, row: CaseRow)
    requires i < |cases| && row.occurrences == cases[i].occurrences + 1
    ensures TotalOccurrences(cases[i := row]) == TotalOccurrences(cases) + 1
    decreases |cases|
  {
    var n, cases' := |cases| - 1, cases[i := row];
    if i == n {
      assert cases'[..n] == cases[..n];
    } else {
      assert cases'[..n] == cases[..n][i := row];
      TotalUpdated(cases[..n], i, row);
    }
  }

  lemma LeadsAfter(log: seq<Observation>, o: Observation, id: string)
    ensures LeadsOf(log + [o], id) == if o.caseId == id then LeadsOf(log, id) + [o.incident.lead] else LeadsOf(log, id)
  {
  }

  lemma IdsDistinct(h: Hash, cases: seq<CaseRow>, i: int, j: int)
    requires GoodHash(h) && Identified(h, cases) && 0 <= i < |cases| && 0 <= j < |cases| && cases[i].id == cases[j].id
    ensures i == j
  {
  }

  lemma FoldSummarises(row: CaseRow, log: seq<Observation>, o: Observation)
    requires Summarises(row, LeadsOf(log, row.id)) && o.caseId == row.id
    ensures Summarises(Folded(row, o.incident, o.at), LeadsOf(log + [o], row.id))
  {
    LeadsAfter(log, o, row.id);
    LeadStep(row.lead, LeadsOf(log, row.id), o.incident.lead);
  }

  lemma OthersSummarise(row: CaseRow, log: seq<Observation>, o: Observation)
    requires Summarises(row, LeadsOf(log, row.id)) && o.caseId != row.id
    ensures Summarises(row, LeadsOf(log + [o], row.id))
  {
    LeadsAfter(log, o, row.id);
  }

  lemma FoldCounts(h: Hash, lib: Library, o: Observation, b: nat, row: CaseRow)
    requires GoodHash(h) && Identified(h, lib.cases) && Counted(lib) && b < |lib.cases|
    requires row == Folded(lib.cases[b], o.incident, o.at) && o.caseId == row.id
    ensures Counted(Library(lib.cases[b := row], lib.log + [o]))
  {
    var cases' := lib.cases[b := row];
    forall i | 0 <= i < |cases'| ensures Summarises(cases'[i], LeadsOf(lib.log + [o], cases'[i].id)) {
      assert Summarises(lib.cases[i], LeadsOf(lib.log, lib.cases[i].id));
      if i == b {
        FoldSummarises(lib.cases[b], lib.log, o);
      } else {
        if lib.cases[i].id == lib.cases[b].id { IdsDistinct(h, lib.cases, i, b); }
        OthersSummarise(lib.cases[i], lib.log, o);
      }
    }
  }

  lemma FoldKeepsCases(c: MemoryConfig, h: Hash, cases: seq<CaseRow>, cases': seq<CaseRow>)
    requires CasesOk(c, h, cases) && SameCases(cases, cases')
    ensures CasesOk(c, h, cases')
  {
    SameCasesIdentified(h, cases, cases');
    SameCasesSeparated(c, cases, cases');
    SameCasesGrouped(c, cases, cases');
  }

  lemma FoldKeepsFiles(c: MemoryConfig, h: Hash, lib: Library, inc: Incident, ts: real, b: nat)
    requires GoodHash(h) && Identified(h, lib.cases) && FilesOk(c, lib) && b < |lib.cases|
    requires Sim(Print(inc.key), Print(lib.cases[b].key)) >= c.tauMerge
    ensures FilesOk(c, Library(lib.cases[b := Folded(lib.cases[b], inc, ts)], lib.log + [Observation(ts, lib.cases[b].id, inc)]))
  {
    var cases := lib.cases;
    var row, o := Folded(cases[b], inc, ts), Observation(ts, cases[b].id, inc);
    TotalUpdated(cases, b, row);
    FoldCounts(h, lib, o, b, row);
    assert Filed(c, cases[b := row], o, b);
    LogKeeps(c, cases, cases[b := row], lib.log, o, b);
  }

  lemma LogKeeps(c: MemoryConfig, cases: seq<CaseRow>, cases': seq<CaseRow>, log: seq<Observation>, o: Observation, b: int)
    requires Logged(c, Library(cases, log)) && Filed(c, cases', o, b)
    requires Extends(cases, cases')
    ensures Logged(c, Library(cases', log + [o]))
  {
    forall p | p in log + [o] ensures exists i :: Filed(c, cases', p, i) {
      if p in log {
        var i :| Filed(c, cases, p, i);
        assert Filed(c, cases', p, i);
      }
    }
  }

  // ---- Opening keeps the library in order ----

  lemma {:induction false} NotLogged(log: seq<Observation>, id: string)
    requires forall o :: o in log ==> o.caseId != id
    ensures LeadsOf(log, id) == []
  {
    if log != [] { NotLogged(log[..|log| - 1], id); }
  }

  lemma FirstLead(lead: Option<real>)
    ensures LeadOk(lead, [lead])
  {
  }

  lemma OpenSummarises(c: MemoryConfig, lib: Library, row: CaseRow, o: Observation)
    requires Logged(c, lib) && !HasId(lib.cases, row.id) && o.caseId == row.id
    requires row.occurrences == 1 && row.lead == o.incident.lead
    ensures Summarises(row, LeadsOf(lib.log + [o], row.id))
  {
    LeadsAfter(lib.log, o, row.id);
    forall p | p in lib.log ensures p.caseId != row.id {
      var j :| Filed(c, lib.cases, p, j);
    }
    NotLogged(lib.log, row.id);
    FirstLead(row.lead);
  }

  lemma OpenCounts(c: MemoryConfig, lib: Library, row: CaseRow, o: Observation)
    requires Counted(lib) && Logged(c, lib) && !HasId(lib.cases, row.id) && o.caseId == row.id
    requires row.occurrences == 1 && row.lead == o.incident.lead
    ensures Counted(Library(lib.cases + [row], lib.log + [o]))
  {
    var cases' := lib.cases + [row];
    OpenSummarises(c, lib, row, o);
    forall i | 0 <= i < |cases'| ensures Summarises(cases'[i], LeadsOf(lib.log + [o], cases'[i].id)) {
      if i < |lib.cases| {
        assert Summarises(lib.cases[i], LeadsOf(lib.log, lib.cases[i].id));
        OthersSummarise(lib.cases[i], lib.log, o);
      }
    }
  }

  /** The row is far enough from every case, and a founder far enough from every founder. */
  ghost predicate Apart(c: MemoryConfig, cases: seq<CaseRow>, row: CaseRow) {
    forall i :: 0 <= i < |cases| ==>
      && Sim(Print(cases[i].key), Print(row.key)) < c.tauMerge
      && (Founder(row) ==> Sim(Print(cases[i].key), Print(row.key)) < c.tauFamily)
  }

  lemma AppendSeparated(c: MemoryConfig, cases: seq<CaseRow>, row: CaseRow)
    requires Separated(c, cases) && Apart(c, cases, row)
    ensures Separated(c, cases + [row])
  {
    var cases' := cases + [row];
    forall i, j | 0 <= i < j < |cases'|
      ensures SimAt(cases', i, j) < c.tauMerge
      ensures Founder(cases'[i]) && Founder(cases'[j]) ==> SimAt(cases', i, j) < c.tauFamily
    {
      if j < |cases| { assert SimAt(cases', i, j) == SimAt(cases, i, j); }
    }
  }

  /** The row founds its own family, or joins the family of case b, which it is near enough to. */
  ghost predicate Joins(c: MemoryConfig, cases: seq<CaseRow>, row: CaseRow, b: nat) {
    b < |cases| && FamilyOf(row) == FamilyOf(cases[b])
    && c.tauFamily <= Sim(Print(cases[b].key), Print(row.key)) < c.tauMerge
  }

  lemma AppendGrouped(c: MemoryConfig, cases: seq<CaseRow>, row: CaseRow, b: nat)
    requires Grouped(c, cases) && (Founder(row) || Joins(c, cases, row, b))
    ensures Grouped(c, cases + [row])
  {
    forall i | 0 <= i <= |cases| ensures GroupedAt(c, cases + [row], i) {
      if i < |cases| {
        OldGrouped(c, cases, row, i);
      } else {
        NewGrouped(c, cases, row, b);
      }
    }
  }

  lemma OldGrouped(c: MemoryConfig, cases: seq<CaseRow>, row: CaseRow, i: nat)
    requires GroupedAt(c, cases, i)
    ensures GroupedAt(c, cases + [row], i)
  {
    FounderKept(cases, cases + [row], i);
    if !Founder(cases[i]) { NeighbourKept(c, cases, cases + [row], i); }
  }

  lemma NewGrouped(c: MemoryConfig, cases: seq<CaseRow>, row: CaseRow, b: nat)
    requires Grouped(c, cases) && (Founder(row) || Joins(c, cases, row, b))
    ensures GroupedAt(c, cases + [row], |cases|)
  {
    if Founder(row) {
      assert FoundedBy(cases + [row], |cases|, |cases|);
    } else {
      assert GroupedAt(c, cases, b);
      JoinGrouped(c, cases, row, b);
    }
  }

  lemma JoinGrouped(c: MemoryConfig, cases: seq<CaseRow>, row: CaseRow, b: nat)
    requires Joins(c, cases, row, b) && HasFounder(cases, b)
    ensures HasFounder(cases + [row], |cases|) && HasNeighbour(c, cases + [row], |cases|)
  {
    var n, cases' := |cases|, cases + [row];
    FounderKept(cases, cases', b);
    var j :| FoundedBy(cases', b, j);
    assert FoundedBy(cases', n, j);
    assert SimAt(cases', b, n) == Sim(Print(cases[b].key), Print(row.key));
    assert VariantOf(c, cases', n, b);
  }

  lemma TotalAppended(cases: seq<CaseRow>, row: CaseRow)
    ensures TotalOccurrences(cases + [row]) == TotalOccurrences(cases) + row.occurrences
  {
  }

  /** A family is the id of some stored case, so a new case in it has another id. */
  lemma FamilyIsStored(c: MemoryConfig, cases: seq<CaseRow>, b: nat)
    requires Grouped(c, cases) && b < |cases|
    ensures HasId(cases, FamilyOf(cases[b]))
  {
    assert GroupedAt(c, cases, b);
  }

  lemma OpenKeepsCases(c: MemoryConfig, h: Hash, cases: seq<CaseRow>, row: CaseRow, b: nat)
    requires CasesOk(c, h, cases) && row.id == h(row.key) && !HasId(cases, row.id)
    requires Apart(c, cases, row) && (Founder(row) || Joins(c, cases, row, b))
    ensures CasesOk(c, h, cases + [row])
  {
    AppendSeparated(c, cases, row);
    AppendGrouped(c, cases, row, b);
    AppendIdentified(h, cases, row);
  }

  lemma AppendIdentified(h: Hash, cases: seq<CaseRow>, row: CaseRow)
    requires Identified(h, cases) && row.id == h(row.key) && !HasId(cases, row.id)
    ensures Identified(h, cases + [row])
  {
  }

  lemma OpenKeepsFiles(c: MemoryConfig, lib: Library, row: CaseRow, o: Observation)
    requires ValidConfig(c) && FilesOk(c, lib) && !HasId(lib.cases, row.id) && row.occurrences == 1
    requires o.caseId == row.id && o.incident == Incident(row.key, row.lead)
    ensures FilesOk(c, Library(lib.cases + [row], lib.log + [o]))
  {
    var cases := lib.cases;
    TotalAppended(cases, row);
    OpenCounts(c, lib, row, o);
    SamePrint(row.key);
    assert Filed(c, cases + [row], o, |cases|);
    LogKeeps(c, cases, cases + [row], lib.log, o, |cases|);
  }

  lemma VariantFamily(cases: seq<CaseRow>, row: CaseRow, family: string)
    requires HasId(cases, family) && !HasId(cases, row.id) && row.family == Some(family)
    requires forall i :: 0 <= i < |cases| ==> cases[i].id != ""
    ensures FamilyOf(row) == family && !Founder(row)
  {
  }

  lemma SimsFlip(cases: seq<CaseRow>, f: Fingerprint, bound: real)
    requires forall i :: 0 <= i < |cases| ==> Sim(f, Print(cases[i].key)) < bound
    ensures forall i :: 0 <= i < |cases| ==> Sim(Print(cases[i].key), f) < bound
  {
    forall i | 0 <= i < |cases| ensures Sim(Print(cases[i].key), f) < bound { SimRange(f, Print(cases[i].key)); }
  }

  /** A variant's row is apart from every case and joins the family of its nearest one. */
  lemma VariantJoins(c: MemoryConfig, h: Hash, cases: seq<CaseRow>, inc: Incident, ts: real) returns (b: nat)
    requires ValidConfig(c) && GoodHash(h) && CasesOk(c, h, cases)
    requires VerdictOf(c, h, cases, inc).register == Variant
    ensures b < |cases|
    ensures var row := Opened(h(inc.key), inc, FamilyOf(cases[b]), ts);
            && Apart(c, cases, row) && Joins(c, cases, row, b) && !HasId(cases, row.id)
            && VerdictOf(c, h, cases, inc).family == FamilyOf(cases[b])
  {
    var f := Print(inc.key);
    NearestIsBest(cases, f, |cases|);
    NeverIgnored(c, h, cases, inc);
    SimsFlip(cases, f, c.tauMerge);
    b := Nearest(cases, f, |cases|).0.value;
    SimRange(f, Print(cases[b].key));
    FamilyIsStored(c, cases, b);
    VariantFamily(cases, Opened(h(inc.key), inc, FamilyOf(cases[b]), ts), FamilyOf(cases[b]));
  }

  /** A novel incident's row is apart from every case and founds its own family. */
  lemma NovelFounds(c: MemoryConfig, h: Hash, cases: seq<CaseRow>, inc: Incident, ts: real)
    requires ValidConfig(c) && GoodHash(h) && Identified(h, cases)
    requires VerdictOf(c, h, cases, inc).register == Novel
    ensures var row := Opened(h(inc.key), inc, h(inc.key), ts);
            Apart(c, cases, row) && Founder(row) && !HasId(cases, row.id)
    ensures VerdictOf(c, h, cases, inc).family == h(inc.key)
  {
    NearestIsBest(cases, Print(inc.key), |cases|);
    NeverIgnored(c, h, cases, inc);
    SimsFlip(cases, Print(inc.key), c.tauFamily);
  }

  lemma OpenKeeps(c: MemoryConfig, h: Hash, lib: Library, inc: Incident, row: CaseRow, ts: real, b: nat)
    requires ValidConfig(c) && LibraryOk(c, h, lib)
    requires row.id == h(inc.key) && row.key == inc.key && row.lead == inc.lead && row.occurrences == 1
    requires Apart(c, lib.cases, row) && (Founder(row) || Joins(c, lib.cases, row, b)) && !HasId(lib.cases, row.id)
    ensures LibraryOk(c, h, Library(InsertOrIgnore(lib.cases, row), lib.log + [Observation(ts, row.id, inc)]))
  {
    OpenKeepsCases(c, h, lib.cases, row, b);
    OpenKeepsFiles(c, lib, row, Observation(ts, row.id, inc));
  }

  lemma OpeningStep(c: MemoryConfig, h: Hash, lib: Library, inc: Incident, ts: real)
    requires VerdictOf(c, h, lib.cases, inc).register != Recurrence
    ensures var row := Opened(h(inc.key), inc, VerdictOf(c, h, lib.cases, inc).family, ts);
            Promoted(c, h, lib, inc, ts) == Library(InsertOrIgnore(lib.cases, row), lib.log + [Observation(ts, row.id, inc)])
  {
  }

  /** A recurrence folds into the nearest case, which is near enough. */
  lemma RecurrenceFolds(c: MemoryConfig, h: Hash, lib: Library, inc: Incident, ts: real) returns (b: nat)
    requires VerdictOf(c, h, lib.cases, inc).register == Recurrence
    ensures b < |lib.cases| && Sim(Print(inc.key), Print(lib.cases[b].key)) >= c.tauMerge
    ensures Promoted(c, h, lib, inc, ts) ==
            Library(lib.cases[b := Folded(lib.cases[b], inc, ts)], lib.log + [Observation(ts, lib.cases[b].id, inc)])
  {
    NearestIsBest(lib.cases, Print(inc.key), |lib.cases|);
    b := Nearest(lib.cases, Print(inc.key), |lib.cases|).0.value;
  }

  lemma RecurrenceKeeps(c: MemoryConfig, h: Hash, lib: Library, inc: Incident, ts: real)
    requires GoodHash(h) && LibraryOk(c, h, lib)
    requires VerdictOf(c, h, lib.cases, inc).register == Recurrence
    ensures LibraryOk(c, h, Promoted(c, h, lib, inc, ts))
  {
    var b := RecurrenceFolds(c, h, lib, inc, ts);
    var cases' := lib.cases[b := Folded(lib.cases[b], inc, ts)];
    FoldKeepsFiles(c, h, lib, inc, ts, b);
    FoldIsSame(lib.cases, b, inc, ts);
    FoldKeepsCases(c, h, lib.cases, cases');
    assert CasesOk(c, h, Promoted(c, h, lib, inc, ts).cases);
  }

  lemma VariantKeeps(c: MemoryConfig, h: Hash, lib: Library, inc: Incident, ts: real)
    requires ValidConfig(c) && GoodHash(h) && LibraryOk(c, h, lib)
    requires VerdictOf(c, h, lib.cases, inc).register == Variant
    ensures LibraryOk(c, h, Promoted(c, h, lib, inc, ts))
  {
    var b := VariantJoins(c, h, lib.cases, inc, ts);
    OpeningStep(c, h, lib, inc, ts);
    OpenKeeps(c, h, lib, inc, Opened(h(inc.key), inc, FamilyOf(lib.cases[b]), ts), ts, b);
  }

  lemma NovelKeeps(c: MemoryConfig, h: Hash, lib: Library, inc: Incident, ts: real)
    requires ValidConfig(c) && GoodHash(h) && LibraryOk(c, h, lib)
    requires VerdictOf(c, h, lib.cases, inc).register == Novel
    ensures LibraryOk(c, h, Promoted(c, h, lib, inc, ts))
  {
    NovelFounds(c, h, lib.cases, inc, ts);
    OpeningStep(c, h, lib, inc, ts);
    OpenKeeps(c, h, lib, inc, Opened(h(inc.key), inc, h(inc.key), ts), ts, 0);
  }

  /** Every incident leaves the library in order, however it is filed. */
  lemma PromotionKeeps(c: MemoryConfig, h: Hash, lib: Library, inc: Incident, ts: real)
    requires ValidConfig(c) && GoodHash(h) && LibraryOk(c, h, lib)
    ensures LibraryOk(c, h, Promoted(c, h, lib, inc, ts))
  {
    match VerdictOf(c, h, lib.cases, inc).register
    case Recurrence => RecurrenceKeeps(c, h, lib, inc, ts);
    case Variant => VariantKeeps(c, h, lib, inc, ts);
    case Novel => NovelKeeps(c, h, lib, inc, ts);
  }

  // ---- What a case dates ----

  /** The times of a case's observations, in order. */
  ghost function TimesOf(log: seq<Observation>, id: string): seq<real> {
    if log == [] then []
    else
      var before, o := TimesOf(log[..|log| - 1], id), log[|log| - 1];
      if o.caseId == id then before + [o.at] else before
  }

  /** A case was first seen at its first observation and last seen at its last. */
  ghost predicate Dates(row: CaseRow, times: seq<real>) {
    times != [] && row.firstSeen == times[0] && row.lastSeen == times[|times| - 1]
  }

  ghost predicate Dated(lib: Library) {
    forall i :: 0 <= i < |lib.cases| ==> Dates(lib.cases[i], TimesOf(lib.log, lib.cases[i].id))
  }

  lemma TimesAfter(log: seq<Observation>, o: Observation, id: string)
    ensures TimesOf(log + [o], id) == if o.caseId == id then TimesOf(log, id) + [o.at] else TimesOf(log, id)
  {
    assert (log + [o])[..|log|] == log;
  }

  lemma {:induction false} NoTimes(log: seq<Observation>, id: string)
    requires forall o :: o in log ==> o.caseId != id
    ensures TimesOf(log, id) == []
  {
    if log != [] { NoTimes(log[..|log| - 1], id); }
  }

  lemma FoldKeepsDates(h: Hash, lib: Library, o: Observation, b: nat, row: CaseRow)
    requires GoodHash(h) && Identified(h, lib.cases) && Dated(lib) && b < |lib.cases|
    requires IsFolded(lib.cases[b], row, o.at) && o.caseId == row.id
    ensures Dated(Library(lib.cases[b := row], lib.log + [o]))
  {
    var cases' := lib.cases[b := row];
    forall i | 0 <= i < |cases'| ensures Dates(cases'[i], TimesOf(lib.log + [o], cases'[i].id)) {
      assert Dates(lib.cases[i], TimesOf(lib.log, lib.cases[i].id));
      TimesAfter(lib.log, o, lib.cases[i].id);
      if i != b && lib.cases[i].id == lib.cases[b].id { IdsDistinct(h, lib.cases, i, b); }
    }
  }

  lemma OpenKeepsDates(c: MemoryConfig, lib: Library, row: CaseRow, o: Observation)
    requires Dated(lib) && Logged(c, lib) && !HasId(lib.cases, row.id) && o.caseId == row.id
    requires row.firstSeen == o.at && row.lastSeen == o.at
    ensures Dated(Library(lib.cases + [row], lib.log + [o]))
  {
    var cases' := lib.cases + [row];
    forall i | 0 <= i < |cases'| ensures Dates(cases'[i], TimesOf(lib.log + [o], cases'[i].id)) {
      TimesAfter(lib.log, o, cases'[i].id);
      if i < |lib.cases| {
        assert Dates(lib.cases[i], TimesOf(lib.log, lib.cases[i].id));
      } else {
        forall p | p in lib.log ensures p.caseId != row.id {
          var j :| Filed(c, lib.cases, p, j);
        }
        NoTimes(lib.log, row.id);
      }
    }
  }

  /** Every incident leaves the dates of all cases in order. */
  lemma PromotionKeepsDates(c: MemoryConfig, h: Hash, lib: Library, inc: Incident, ts: real)
    requires ValidConfig(c) && GoodHash(h) && LibraryOk(c, h, lib) && Dated(lib)
    ensures Dated(Promoted(c, h, lib, inc, ts))
  {
    if VerdictOf(c, h, lib.cases, inc).register == Recurrence {
      var b := RecurrenceFolds(c, h, lib, inc, ts);
      FoldKeepsDates(h, lib, Observation(ts, lib.cases[b].id, inc), b, Folded(lib.cases[b], inc, ts));
    } else {
      NeverIgnored(c, h, lib.cases, inc);
      OpeningStep(c, h, lib, inc, ts);
      var row := Opened(h(inc.key), inc, VerdictOf(c, h, lib.cases, inc).family, ts);
      OpenKeepsDates(c, lib, row, Observation(ts, row.id, inc));
    }
  }

  /** A promotion never changes the id, key or family of a stored case. */
  lemma PrototypesFixed(c: MemoryConfig, h: Hash, lib: Library, inc: Incident, ts: real)
    ensures var cases' := Promoted(c, h, lib, inc, ts).cases;
            |cases'| >= |lib.cases| && forall i :: 0 <= i < |lib.cases| ==>
              cases'[i].id == lib.cases[i].id && cases'[i].key == lib.cases[i].key && cases'[i].family == lib.cases[i].family
  {
  }

  /** No prototype drift: incidents ever filed under one case are similar to each other. */
  lemma NoDrift(c: MemoryConfig, h: Hash, lib: Library, o: Observation, p: Observation)
    requires ValidConfig(c) && GoodHash(h) && LibraryOk(c, h, lib)
    requires o in lib.log && p in lib.log && o.caseId == p.caseId
    ensures Sim(Print(o.incident.key), Print(p.incident.key)) >= 2.0 * c.tauMerge - 1.0
  {
    var i :| Filed(c, lib.cases, o, i);
    var j :| Filed(c, lib.cases, p, j);
    IdsDistinct(h, lib.cases, i, j);
    FoldedAreClose(Print(o.incident.key), Print(p.incident.key), Print(lib.cases[i].key), c.tauMerge);
  }
}
