/** The edge_memory table: seeding, confirmation, decay, and what they keep over every run. */
module EdgeMemory {
  import opened Basics
  import opened Config
  import opened Digraph
  import opened Names

  datatype EdgeKey = EdgeKey(src: string, dst: string, signal: string)

  datatype EdgeState = Steady | Confirming | Active | Decaying | Hidden

  datatype EdgeRow = EdgeRow(confidence: real, r: real, lag: int, evidence: seq<string>, hits: nat, visible: bool,
                             state: EdgeState, firstSeen: real, lastSeen: real, updated: real, base: real)

  type Table = map<EdgeKey, EdgeRow>

  /** What one pass tells the table: live edges, witnessed shared-disk pairs if there is a witness, and the pods' workloads. */
  datatype EdgeInput = EdgeInput(live: seq<Edge>, shared: Option<set<set<string>>>, present: set<string>, ts: real)

  const FLOOR_SLACK: real := 0.000000001

  // ---- One row ----

  /** A witnessed pair carries at least the topology prior. */
  function SeedRow(c: MemoryConfig, row: Option<EdgeRow>, ts: real): EdgeRow {
    match row
    case None => EdgeRow(c.prior, 0.0, 0, ["pvc"], 0, false, Steady, ts, ts, ts, c.prior)
    case Some(x) => if x.base < c.prior then x.(base := c.prior) else x
  }

  /** Move the confidence toward 1. */
  function Raised(conf: real, alpha: real): real { conf + alpha * (1.0 - conf) }

  function ConfirmRow(c: MemoryConfig, row: Option<EdgeRow>, e: Edge, ts: real): EdgeRow {
    var conf := if row.Some? then Raised(row.value.confidence, c.alpha) else c.alpha;
    var visible := (row.Some? && row.value.visible) || conf >= c.show;
    EdgeRow(conf, e.r, e.lag, e.evidence, if row.Some? then row.value.hits + 1 else 1, visible,
            if visible then Active else Confirming, if row.Some? then row.value.firstSeen else ts, ts, ts,
            Max(if row.Some? then row.value.base else 0.0, Product(c.floorFrac, conf)))
  }

  function DecayRow(c: MemoryConfig, x: EdgeRow, ts: real): EdgeRow {
    var conf := Max(x.base, Product(x.confidence, 1.0 - c.decay));
    var visible := x.visible && conf >= c.hide;
    var atFloor := conf <= x.base + FLOOR_SLACK && x.base > 0.0;
    x.(confidence := conf, visible := visible, updated := ts,
       state := if atFloor then Steady else if visible then Decaying else Hidden)
  }

  // ---- The table ----

  function Lookup(t: Table, k: EdgeKey): Option<EdgeRow> { if k in t then Some(t[k]) else None }

  function Workloads(pods: set<string>): set<string> { set p | p in pods :: StableWorkload(p) }

  function KeyOf(c: MemoryConfig, e: Edge): EdgeKey { EdgeKey(StableWorkload(e.src), StableWorkload(e.dst), c.signal) }

  /** k is the ordered pair of two present workloads that share a witnessed relation. */
  ghost predicate Seeds(c: MemoryConfig, k: EdgeKey, i: EdgeInput) {
    && i.shared.Some? && k.signal == c.signal && Less(k.src, k.dst)
    && k.src in i.present && k.dst in i.present
    && exists pair :: pair in i.shared.value && Workloads(pair) == {k.src, k.dst}
  }

  ghost function SeedKeys(c: MemoryConfig, i: EdgeInput): set<EdgeKey> {
    set a, b | a in i.present && b in i.present && Seeds(c, EdgeKey(a, b, c.signal), i) :: EdgeKey(a, b, c.signal)
  }

  ghost function Seeded(c: MemoryConfig, t: Table, keys: set<EdgeKey>, ts: real): Table {
    map k | k in t.Keys + keys :: if k in keys then SeedRow(c, Lookup(t, k), ts) else t[k]
  }

  ghost function Confirmed(c: MemoryConfig, t: Table, live: seq<Edge>, ts: real): Table {
    if live == [] then t
    else
      var before, e := Confirmed(c, t, live[..|live| - 1], ts), live[|live| - 1];
      before[KeyOf(c, e) := ConfirmRow(c, Lookup(before, KeyOf(c, e)), e, ts)]
  }

  predicate Live(c: MemoryConfig, k: EdgeKey, live: seq<Edge>) { exists j :: 0 <= j < |live| && KeyOf(c, live[j]) == k }

  predicate Decays(c: MemoryConfig, k: EdgeKey, i: EdgeInput) {
    k.signal == c.signal && !Live(c, k, i.live) && k.src in i.present && k.dst in i.present
  }

  ghost function Decayed(c: MemoryConfig, t: Table, i: EdgeInput): Table {
    map k | k in t :: if Decays(c, k, i) then DecayRow(c, t[k], i.ts) else t[k]
  }

  /** One pass over the table: seed, confirm, decay. */
  ghost function EdgePass(c: MemoryConfig, t: Table, i: EdgeInput): Table {
    Decayed(c, Confirmed(c, Seeded(c, t, SeedKeys(c, i), i.ts), i.live, i.ts), i)
  }

  ghost function EdgeRun(c: MemoryConfig, t: Table, inputs: seq<EdgeInput>): Table {
    if inputs == [] then t
    else EdgePass(c, EdgeRun(c, t, inputs[..|inputs| - 1]), inputs[|inputs| - 1])
  }

  // ---- Each key evolves on its own ----

  ghost function KeySeeded(c: MemoryConfig, k: EdgeKey, row: Option<EdgeRow>, i: EdgeInput): Option<EdgeRow> {
    if Seeds(c, k, i) then Some(SeedRow(c, row, i.ts)) else row
  }

  ghost function KeyConfirmed(c: MemoryConfig, k: EdgeKey, row: Option<EdgeRow>, live: seq<Edge>, ts: real): Option<EdgeRow> {
    if live == [] then row
    else
      var before, e := KeyConfirmed(c, k, row, live[..|live| - 1], ts), live[|live| - 1];
      if KeyOf(c, e) == k then Some(ConfirmRow(c, before, e, ts)) else before
  }

  ghost function KeyPass(c: MemoryConfig, k: EdgeKey, row: Option<EdgeRow>, i: EdgeInput): Option<EdgeRow> {
    var confirmed := KeyConfirmed(c, k, KeySeeded(c, k, row, i), i.live, i.ts);
    if confirmed.Some? && Decays(c, k, i) then Some(DecayRow(c, confirmed.value, i.ts)) else confirmed
  }

  ghost function KeyRun(c: MemoryConfig, k: EdgeKey, row: Option<EdgeRow>, inputs: seq<EdgeInput>): Option<EdgeRow> {
    if inputs == [] then row
    else KeyPass(c, k, KeyRun(c, k, row, inputs[..|inputs| - 1]), inputs[|inputs| - 1])
  }

  lemma {:induction false} ConfirmedAt(c: MemoryConfig, t: Table, live: seq<Edge>, ts: real, k: EdgeKey)
    ensures Lookup(Confirmed(c, t, live, ts), k) == KeyConfirmed(c, k, Lookup(t, k), live, ts)
  {
    if live != [] {
      ConfirmedAt(c, t, live[..|live| - 1], ts, k);
      ConfirmedAt(c, t, live[..|live| - 1], ts, KeyOf(c, live[|live| - 1]));
    }
  }

  lemma SeededAt(c: MemoryConfig, t: Table, i: EdgeInput, k: EdgeKey)
    ensures Lookup(Seeded(c, t, SeedKeys(c, i), i.ts), k) == KeySeeded(c, k, Lookup(t, k), i)
  {
  }

  lemma PassAt(c: MemoryConfig, t: Table, i: EdgeInput, k: EdgeKey)
    ensures Lookup(EdgePass(c, t, i), k) == KeyPass(c, k, Lookup(t, k), i)
  {
    SeededAt(c, t, i, k);
    ConfirmedAt(c, Seeded(c, t, SeedKeys(c, i), i.ts), i.live, i.ts, k);
  }

  lemma {:induction false} RunAt(c: MemoryConfig, t: Table, inputs: seq<EdgeInput>, k: EdgeKey)
    ensures Lookup(EdgeRun(c, t, inputs), k) == KeyRun(c, k, Lookup(t, k), inputs)
  {
    if inputs != [] {
      RunAt(c, t, inputs[..|inputs| - 1], k);
      PassAt(c, EdgeRun(c, t, inputs[..|inputs| - 1]), inputs[|inputs| - 1], k);
    }
  }

  // ---- The invariant of every run ----

  /** The displayed state agrees with the visibility; a steady edge may be either. */
  predicate StateFits(x: EdgeRow) {
    (x.state in {Active, Decaying} ==> x.visible) && (x.state in {Confirming, Hidden} ==> !x.visible)
  }

  ghost predicate RowOk(c: MemoryConfig, x: EdgeRow) {
    && StateFits(x)
    && 0.0 <= x.base <= x.confidence <= 1.0
    && (x.visible ==> x.confidence >= c.hide)
    && (!x.visible ==> x.confidence < c.show)
  }

  /** Between seeding and the end of the pass the floor may exceed the confidence, up to the prior. */
  ghost predicate MidRowOk(c: MemoryConfig, x: EdgeRow) {
    && StateFits(x)
    && 0.0 <= x.confidence <= 1.0 && 0.0 <= x.base <= Max(x.confidence, c.prior)
    && (x.visible ==> x.confidence >= c.hide)
    && (!x.visible ==> x.confidence < c.show)
  }

  ghost predicate OptionOk(c: MemoryConfig, row: Option<EdgeRow>) { row.Some? ==> RowOk(c, row.value) }

  lemma ConfirmKeeps(c: MemoryConfig, row: Option<EdgeRow>, e: Edge, ts: real)
    requires ValidConfig(c) && (row.Some? ==> MidRowOk(c, row.value))
    ensures var x := ConfirmRow(c, row, e, ts);
            RowOk(c, x) && (row.Some? ==> x.base >= row.value.base && x.confidence >= row.value.confidence)
  {
    var conf0 := if row.Some? then row.value.confidence else 0.0;
    RaisedBounds(conf0, c.alpha);
    ProductBounds(c.floorFrac, ConfirmRow(c, row, e, ts).confidence);
  }

  lemma RaisedBounds(conf: real, alpha: real)
    requires 0.0 <= conf <= 1.0 && 0.0 <= alpha <= 1.0
    ensures conf <= Raised(conf, alpha) <= 1.0 && alpha <= Raised(conf, alpha) && Raised(0.0, alpha) == alpha
  {
    ProductNonNegative(alpha, 1.0 - conf);
    ProductNonNegative(1.0 - alpha, 1.0 - conf);
    ProductNonNegative(1.0 - alpha, conf);
  }

  lemma DecayKeeps(c: MemoryConfig, x: EdgeRow, ts: real)
    requires ValidConfig(c) && MidRowOk(c, x)
    ensures RowOk(c, DecayRow(c, x, ts)) && DecayRow(c, x, ts).base == x.base
    ensures DecayRow(c, x, ts).confidence <= Max(x.confidence, x.base)
  {
    ProductBounds(1.0 - c.decay, x.confidence);
  }

  lemma SeedKeeps(c: MemoryConfig, row: Option<EdgeRow>, ts: real)
    requires ValidConfig(c) && OptionOk(c, row)
    ensures MidRowOk(c, SeedRow(c, row, ts)) && SeedRow(c, row, ts).base >= c.prior
    ensures row.Some? ==> SeedRow(c, row, ts).base >= row.value.base
  {
  }

  /** After at least one confirmation the row is in order again; with none it is untouched. */
  lemma {:induction false} ConfirmedKeeps(c: MemoryConfig, k: EdgeKey, row: Option<EdgeRow>, live: seq<Edge>, ts: real)
    requires ValidConfig(c) && (row.Some? ==> MidRowOk(c, row.value))
    ensures var x := KeyConfirmed(c, k, row, live, ts);
            if Live(c, k, live)
            then x.Some? && RowOk(c, x.value) && (row.Some? ==> x.value.base >= row.value.base)
            else x == row
  {
    if live != [] {
      var front, e := live[..|live| - 1], live[|live| - 1];
      ConfirmedKeeps(c, k, row, front, ts);
      LiveSplit(c, k, live);
      if KeyOf(c, e) == k { ConfirmKeeps(c, KeyConfirmed(c, k, row, front, ts), e, ts); }
    }
  }

  lemma LiveSplit(c: MemoryConfig, k: EdgeKey, live: seq<Edge>)
    requires live != []
    ensures Live(c, k, live) <==> Live(c, k, live[..|live| - 1]) || KeyOf(c, live[|live| - 1]) == k
  {
  }

  /** Seeding may lift the floor over the confidence; the same pass confirms or decays that key. */
  lemma PassKeeps(c: MemoryConfig, k: EdgeKey, row: Option<EdgeRow>, i: EdgeInput)
    requires ValidConfig(c) && OptionOk(c, row)
    ensures OptionOk(c, KeyPass(c, k, row, i))
    ensures row.Some? ==> KeyPass(c, k, row, i).Some? && KeyPass(c, k, row, i).value.base >= row.value.base
    ensures Seeds(c, k, i) ==> KeyPass(c, k, row, i).Some? && KeyPass(c, k, row, i).value.base >= c.prior
  {
    SeedKeeps(c, row, i.ts);
    var seeded := KeySeeded(c, k, row, i);
    ConfirmedKeeps(c, k, seeded, i.live, i.ts);
    if seeded.Some? && Decays(c, k, i) { DecayKeeps(c, seeded.value, i.ts); }
  }

  lemma {:induction false} KeyRunKeeps(c: MemoryConfig, k: EdgeKey, row: Option<EdgeRow>, inputs: seq<EdgeInput>)
    requires ValidConfig(c) && OptionOk(c, row)
    ensures OptionOk(c, KeyRun(c, k, row, inputs))
    ensures row.Some? ==> KeyRun(c, k, row, inputs).Some? && KeyRun(c, k, row, inputs).value.base >= row.value.base
  {
    if inputs != [] {
      KeyRunKeeps(c, k, row, inputs[..|inputs| - 1]);
      PassKeeps(c, k, KeyRun(c, k, row, inputs[..|inputs| - 1]), inputs[|inputs| - 1]);
    }
  }

  /** After every pass of every run: 0 <= base <= confidence <= 1 and the Schmitt bounds; floors never fall. */
  lemma RunKeepsTable(c: MemoryConfig, t: Table, inputs: seq<EdgeInput>, k: EdgeKey)
    requires ValidConfig(c) && OptionOk(c, Lookup(t, k))
    ensures OptionOk(c, Lookup(EdgeRun(c, t, inputs), k))
    ensures k in t ==> k in EdgeRun(c, t, inputs) && EdgeRun(c, t, inputs)[k].base >= t[k].base
  {
    RunAt(c, t, inputs, k);
    KeyRunKeeps(c, k, Lookup(t, k), inputs);
  }

  // ---- The Schmitt trigger ----

  lemma {:induction false} ConfirmedVisibility(c: MemoryConfig, k: EdgeKey, row: Option<EdgeRow>, live: seq<Edge>, ts: real)
    requires ValidConfig(c) && (row.Some? ==> MidRowOk(c, row.value))
    ensures var x := KeyConfirmed(c, k, row, live, ts);
            && (row.Some? && row.value.visible ==> x.Some? && x.value.visible)
            && (x.Some? && x.value.visible && !(row.Some? && row.value.visible) ==> x.value.confidence >= c.show)
  {
    if live != [] {
      var front, e := live[..|live| - 1], live[|live| - 1];
      ConfirmedVisibility(c, k, row, front, ts);
      ConfirmedKeeps(c, k, row, front, ts);
      if KeyOf(c, e) == k { ConfirmKeeps(c, KeyConfirmed(c, k, row, front, ts), e, ts); }
    }
  }

  /** An edge turns visible only at show or above, and hidden only below hide; in between it stays as it was. */
  lemma SchmittTrigger(c: MemoryConfig, k: EdgeKey, row: Option<EdgeRow>, i: EdgeInput)
    requires ValidConfig(c) && OptionOk(c, row) && KeyPass(c, k, row, i).Some?
    ensures var was, x := row.Some? && row.value.visible, KeyPass(c, k, row, i).value;
            && (x.visible && !was ==> x.confidence >= c.show)
            && (!x.visible && was ==> x.confidence < c.hide)
            && (c.hide <= x.confidence < c.show ==> x.visible == was)
  {
    SeedKeeps(c, row, i.ts);
    ConfirmedVisibility(c, k, KeySeeded(c, k, row, i), i.live, i.ts);
    ConfirmedKeeps(c, k, KeySeeded(c, k, row, i), i.live, i.ts);
  }

  /** A visible edge whose floor has reached hide stays visible in every future run. */
  lemma {:induction false} StaysVisible(c: MemoryConfig, k: EdgeKey, row: EdgeRow, inputs: seq<EdgeInput>)
    requires ValidConfig(c) && RowOk(c, row) && row.visible && row.base >= c.hide
    ensures KeyRun(c, k, Some(row), inputs).Some? && KeyRun(c, k, Some(row), inputs).value.visible
  {
    if inputs != [] {
      var front := inputs[..|inputs| - 1];
      StaysVisible(c, k, row, front);
      KeyRunKeeps(c, k, Some(row), front);
      KeyRunKeeps(c, k, Some(row), inputs);
      SchmittTrigger(c, k, KeyRun(c, k, Some(row), front), inputs[|inputs| - 1]);
    }
  }

  // ---- The floor is the history's peak ----

  /** The key is confirmed in pass j of the run, and the row after it has the given confidence. */
  ghost predicate ConfirmedTo(c: MemoryConfig, k: EdgeKey, inputs: seq<EdgeInput>, j: int, conf: real) {
    && 0 <= j < |inputs| && Live(c, k, inputs[j].live)
    && var x := KeyRun(c, k, None, inputs[..j + 1]); x.Some? && x.value.confidence == conf
  }

  ghost predicate SeededIn(c: MemoryConfig, k: EdgeKey, inputs: seq<EdgeInput>, j: int) {
    0 <= j < |inputs| && Seeds(c, k, inputs[j])
  }

  ghost predicate AtLeast(c: MemoryConfig, k: EdgeKey, inputs: seq<EdgeInput>, base: real) {
    && (forall j :: SeededIn(c, k, inputs, j) ==> base >= c.prior)
    && (forall j, conf :: ConfirmedTo(c, k, inputs, j, conf) ==> base >= Product(c.floorFrac, conf))
  }

  ghost predicate Attained(c: MemoryConfig, k: EdgeKey, inputs: seq<EdgeInput>, base: real) {
    || (base == c.prior && exists j :: SeededIn(c, k, inputs, j))
    || (exists j, conf :: ConfirmedTo(c, k, inputs, j, conf) && base == Product(c.floorFrac, conf))
  }

  /** Over the confirmations of one pass the floor becomes the larger of what it was and the share of the final confidence. */
  lemma {:induction false} ConfirmedBase(c: MemoryConfig, k: EdgeKey, row: Option<EdgeRow>, live: seq<Edge>, ts: real)
    requires ValidConfig(c) && (row.Some? ==> MidRowOk(c, row.value)) && Live(c, k, live)
    ensures var x := KeyConfirmed(c, k, row, live, ts);
            x.Some? && x.value.base == Max(if row.Some? then row.value.base else 0.0, Product(c.floorFrac, x.value.confidence))
  {
    var front, e := live[..|live| - 1], live[|live| - 1];
    LiveSplit(c, k, live);
    ConfirmedKeeps(c, k, row, front, ts);
    if Live(c, k, front) { ConfirmedBase(c, k, row, front, ts); }
    if KeyOf(c, e) == k {
      var before := KeyConfirmed(c, k, row, front, ts);
      ConfirmKeeps(c, before, e, ts);
      if Live(c, k, front) {
        ProductGrows(c.floorFrac, before.value.confidence, ConfirmRow(c, before, e, ts).confidence);
      }
    }
  }

  /** One pass takes the floor to the maximum of what it was, the prior if seeded, and the share of the confidence if confirmed. */
  lemma PassBase(c: MemoryConfig, k: EdgeKey, row: Option<EdgeRow>, i: EdgeInput)
    requires ValidConfig(c) && OptionOk(c, row)
    ensures var x := KeyPass(c, k, row, i);
            && (x.None? <==> row.None? && !Seeds(c, k, i) && !Live(c, k, i.live))
            && (x.Some? ==> x.value.base == Max(Max(if row.Some? then row.value.base else 0.0, if Seeds(c, k, i) then c.prior else 0.0),
                                                if Live(c, k, i.live) then Product(c.floorFrac, x.value.confidence) else 0.0))
  {
    SeedKeeps(c, row, i.ts);
    var seeded := KeySeeded(c, k, row, i);
    ConfirmedKeeps(c, k, seeded, i.live, i.ts);
    if Live(c, k, i.live) {
      ConfirmedBase(c, k, seeded, i.live, i.ts);
    } else if seeded.Some? && Decays(c, k, i) {
      DecayKeeps(c, seeded.value, i.ts);
    }
  }

  /** The events of a run are those of its front and those of its last pass. */
  lemma HistoryExtends(c: MemoryConfig, k: EdgeKey, inputs: seq<EdgeInput>, j: int, conf: real)
    requires inputs != []
    ensures var n, front := |inputs| - 1, inputs[..|inputs| - 1];
            && (SeededIn(c, k, inputs, j) <==> SeededIn(c, k, front, j) || (j == n && Seeds(c, k, inputs[n])))
            && (j != n ==> (ConfirmedTo(c, k, inputs, j, conf) <==> ConfirmedTo(c, k, front, j, conf)))
  {
    var n, front := |inputs| - 1, inputs[..|inputs| - 1];
    if 0 <= j < n { assert inputs[..j + 1] == front[..j + 1]; }
  }

  lemma AtLeastExtends(c: MemoryConfig, k: EdgeKey, inputs: seq<EdgeInput>, prev: real, base: real)
    requires inputs != [] && AtLeast(c, k, inputs[..|inputs| - 1], prev) && base >= prev
    requires Seeds(c, k, inputs[|inputs| - 1]) ==> base >= c.prior
    requires forall conf :: ConfirmedTo(c, k, inputs, |inputs| - 1, conf) ==> base >= Product(c.floorFrac, conf)
    ensures AtLeast(c, k, inputs, base)
  {
    forall j | SeededIn(c, k, inputs, j) ensures base >= c.prior { HistoryExtends(c, k, inputs, j, 0.0); }
    forall j, conf | ConfirmedTo(c, k, inputs, j, conf) ensures base >= Product(c.floorFrac, conf) { HistoryExtends(c, k, inputs, j, conf); }
  }

  lemma AttainedExtends(c: MemoryConfig, k: EdgeKey, inputs: seq<EdgeInput>, base: real)
    requires inputs != [] && Attained(c, k, inputs[..|inputs| - 1], base)
    ensures Attained(c, k, inputs, base)
  {
    var front := inputs[..|inputs| - 1];
    if j :| base == c.prior && SeededIn(c, k, front, j) {
      HistoryExtends(c, k, inputs, j, 0.0);
    } else {
      var j, conf :| ConfirmedTo(c, k, front, j, conf) && base == Product(c.floorFrac, conf);
      HistoryExtends(c, k, inputs, j, conf);
    }
  }

  ghost predicate NeverSeen(c: MemoryConfig, k: EdgeKey, inputs: seq<EdgeInput>) {
    forall j :: 0 <= j < |inputs| ==> !Seeds(c, k, inputs[j]) && !Live(c, k, inputs[j].live)
  }

  lemma NeverSeenExtends(c: MemoryConfig, k: EdgeKey, inputs: seq<EdgeInput>)
    requires inputs != []
    ensures var n := |inputs| - 1;
            NeverSeen(c, k, inputs) <==> NeverSeen(c, k, inputs[..n]) && !Seeds(c, k, inputs[n]) && !Live(c, k, inputs[n].live)
  {
    var n := |inputs| - 1;
    assert forall j :: 0 <= j < n ==> inputs[j] == inputs[..n][j];
  }

  /** No row iff nothing ever happened to the key; else a floor that the history bounds and attains. */
  ghost predicate IsPeak(c: MemoryConfig, k: EdgeKey, inputs: seq<EdgeInput>, row: Option<EdgeRow>) {
    if row.None? then NeverSeen(c, k, inputs)
    else !NeverSeen(c, k, inputs) && AtLeast(c, k, inputs, row.value.base) && Attained(c, k, inputs, row.value.base)
  }

  /** base_conf is the maximum of the prior, if the key was ever seeded, and floor_frac times every confirmed confidence. */
  lemma {:induction false} BaseIsPeak(c: MemoryConfig, k: EdgeKey, inputs: seq<EdgeInput>)
    requires ValidConfig(c)
    ensures IsPeak(c, k, inputs, KeyRun(c, k, None, inputs))
  {
    if inputs != [] {
      var n := |inputs| - 1;
      BaseIsPeak(c, k, inputs[..n]);
      KeyRunKeeps(c, k, None, inputs[..n]);
      PeakStep(c, k, inputs, KeyRun(c, k, None, inputs[..n]));
    }
  }

  lemma PeakStep(c: MemoryConfig, k: EdgeKey, inputs: seq<EdgeInput>, row: Option<EdgeRow>)
    requires ValidConfig(c) && inputs != [] && OptionOk(c, row)
    requires row == KeyRun(c, k, None, inputs[..|inputs| - 1]) && IsPeak(c, k, inputs[..|inputs| - 1], row)
    ensures IsPeak(c, k, inputs, KeyPass(c, k, row, inputs[|inputs| - 1]))
  {
    var n := |inputs| - 1;
    PassBase(c, k, row, inputs[n]);
    NeverSeenExtends(c, k, inputs);
    assert inputs[..n + 1] == inputs;
    var x := KeyPass(c, k, row, inputs[n]);
    if x.Some? { PeakExtends(c, k, inputs, row, x.value); }
  }

  lemma PeakExtends(c: MemoryConfig, k: EdgeKey, inputs: seq<EdgeInput>, row: Option<EdgeRow>, x: EdgeRow)
    requires ValidConfig(c) && inputs != [] && OptionOk(c, row)
    requires var n := |inputs| - 1;
             row == KeyRun(c, k, None, inputs[..n]) && Some(x) == KeyPass(c, k, row, inputs[n]) && inputs[..n + 1] == inputs
    requires if row.Some? then AtLeast(c, k, inputs[..|inputs| - 1], row.value.base) && Attained(c, k, inputs[..|inputs| - 1], row.value.base)
             else NeverSeen(c, k, inputs[..|inputs| - 1])
    ensures AtLeast(c, k, inputs, x.base) && Attained(c, k, inputs, x.base)
  {
    var n := |inputs| - 1;
    var i := inputs[n];
    PassBase(c, k, row, i);
    if row.None? { assert AtLeast(c, k, inputs[..n], 0.0); }
    PassKeeps(c, k, row, i);
    assert KeyRun(c, k, None, inputs[..n + 1]) == Some(x);
    forall conf | ConfirmedTo(c, k, inputs, n, conf) ensures x.base >= Product(c.floorFrac, conf) {
      assert conf == x.confidence;
    }
    AtLeastExtends(c, k, inputs, if row.Some? then row.value.base else 0.0, x.base);
    ProductBounds(c.floorFrac, x.confidence);
    if Live(c, k, i.live) && x.base == Product(c.floorFrac, x.confidence) {
      assert ConfirmedTo(c, k, inputs, n, x.confidence);
    } else if Seeds(c, k, i) && x.base == c.prior {
      assert SeededIn(c, k, inputs, n);
    } else {
      assert row.Some? && x.base == row.value.base;
      AttainedExtends(c, k, inputs, x.base);
    }
  }

  // ---- Closed forms ----

  /** The witness knows a pair of pods of exactly these two present workloads, named in order. */
  ghost predicate Witnessed(c: MemoryConfig, k: EdgeKey, i: EdgeInput) {
    && k.signal == c.signal && Less(k.src, k.dst) && k.src in i.present && k.dst in i.present
    && i.shared.Some? && exists pair :: pair in i.shared.value && Spans(pair, k.src, k.dst)
  }

  ghost predicate Spans(pair: set<string>, a: string, b: string) {
    && (forall x :: x in pair ==> StableWorkload(x) == a || StableWorkload(x) == b)
    && (exists x :: x in pair && StableWorkload(x) == a)
    && (exists x :: x in pair && StableWorkload(x) == b)
  }

  lemma SpansMeans(pair: set<string>, a: string, b: string)
    ensures Spans(pair, a, b) <==> Workloads(pair) == {a, b}
  {
    if Workloads(pair) == {a, b} {
      assert a in Workloads(pair) && b in Workloads(pair);
      forall x | x in pair ensures StableWorkload(x) == a || StableWorkload(x) == b { assert StableWorkload(x) in Workloads(pair); }
    }
  }

  lemma SeedsMeans(c: MemoryConfig, k: EdgeKey, i: EdgeInput)
    ensures Seeds(c, k, i) <==> Witnessed(c, k, i)
  {
    if i.shared.Some? {
      forall pair ensures Spans(pair, k.src, k.dst) <==> Workloads(pair) == {k.src, k.dst} { SpansMeans(pair, k.src, k.dst); }
    }
  }

  /** e leads from a pod of the key's first workload to one of its second, in the key's signal. */
  ghost predicate Joins(c: MemoryConfig, k: EdgeKey, e: Edge) {
    k.signal == c.signal && StableWorkload(e.src) == k.src && StableWorkload(e.dst) == k.dst
  }

  /** How many of the live edges join the key's workloads. */
  ghost function Confirmations(c: MemoryConfig, k: EdgeKey, live: seq<Edge>): nat {
    if live == [] then 0
    else Confirmations(c, k, live[..|live| - 1]) + (if Joins(c, k, live[|live| - 1]) then 1 else 0)
  }

  ghost function AllConfirmations(c: MemoryConfig, k: EdgeKey, inputs: seq<EdgeInput>): nat {
    if inputs == [] then 0
    else AllConfirmations(c, k, inputs[..|inputs| - 1]) + Confirmations(c, k, inputs[|inputs| - 1].live)
  }

  lemma {:induction false} LiveMeans(c: MemoryConfig, k: EdgeKey, live: seq<Edge>)
    ensures Live(c, k, live) <==> Confirmations(c, k, live) > 0
  {
    if live != [] {
      LiveMeans(c, k, live[..|live| - 1]);
      LiveSplit(c, k, live);
    }
  }

  lemma {:induction false} ConfirmedNone(c: MemoryConfig, k: EdgeKey, row: Option<EdgeRow>, live: seq<Edge>, ts: real)
    requires forall m :: 0 <= m < |live| ==> KeyOf(c, live[m]) != k
    ensures KeyConfirmed(c, k, row, live, ts) == row
  {
    if live != [] { ConfirmedNone(c, k, row, live[..|live| - 1], ts); }
  }

  /** The confidence after n confirmations leaves the share (1 - alpha)^n of the gap to 1. */
  ghost function Grown(conf: real, q: real): real { 1.0 - (1.0 - conf) * q }

  lemma GrowthStep(conf: real, q: real, alpha: real)
    ensures Raised(Grown(conf, q), alpha) == Grown(conf, Product(q, 1.0 - alpha))
    ensures Grown(conf, 1.0) == conf
  {
  }

  function StartConfidence(row: Option<EdgeRow>): real { if row.Some? then row.value.confidence else 0.0 }

  lemma {:induction false} ConfirmedGrown(c: MemoryConfig, k: EdgeKey, row: Option<EdgeRow>, live: seq<Edge>, ts: real)
    ensures var x := KeyConfirmed(c, k, row, live, ts);
            StartConfidence(x) == Grown(StartConfidence(row), Power(1.0 - c.alpha, Confirmations(c, k, live)))
  {
    GrowthStep(StartConfidence(row), 1.0, c.alpha);
    if live != [] {
      var front := live[..|live| - 1];
      ConfirmedGrown(c, k, row, front, ts);
      GrowthStep(StartConfidence(row), Power(1.0 - c.alpha, Confirmations(c, k, front)), c.alpha);
      RaisedFromZero(c, KeyConfirmed(c, k, row, front, ts), live[|live| - 1], ts);
    }
  }

  lemma RaisedFromZero(c: MemoryConfig, row: Option<EdgeRow>, e: Edge, ts: real)
    ensures ConfirmRow(c, row, e, ts).confidence == Raised(StartConfidence(row), c.alpha)
  {
  }

  lemma {:induction false} PowerAdds(b: real, m: nat, n: nat)
    ensures Power(b, m + n) == Product(Power(b, m), Power(b, n))
  {
    if n > 0 {
      PowerAdds(b, m, n - 1);
      ProductAssociates(Power(b, m), Power(b, n - 1), b);
    } else {
      assert Product(Power(b, m), 1.0) == Power(b, m);
    }
  }

  lemma ProductAssociates(x: real, y: real, z: real)
    ensures Product(Product(x, y), z) == Product(x, Product(y, z))
  {
  }

  lemma GrownTwice(conf: real, q: real, q': real)
    ensures Grown(Grown(conf, q), q') == Grown(conf, Product(q, q'))
  {
    assert (1.0 - conf) * q * q' == (1.0 - conf) * (q * q');
  }

  lemma GrowthJoins(conf: real, b: real, m: nat, n: nat)
    ensures Grown(Grown(conf, Power(b, m)), Power(b, n)) == Grown(conf, Power(b, m + n))
  {
    PowerAdds(b, m, n);
    GrownTwice(conf, Power(b, m), Power(b, n));
  }

  /** Where growth starts: at the row, at the prior for a new key that the first pass seeds, else at 0. */
  ghost function Start(c: MemoryConfig, k: EdgeKey, row: Option<EdgeRow>, inputs: seq<EdgeInput>): real {
    if row.Some? then row.value.confidence
    else if inputs != [] && Witnessed(c, k, inputs[0]) then c.prior
    else 0.0
  }

  lemma ConfirmingPass(c: MemoryConfig, k: EdgeKey, row: Option<EdgeRow>, i: EdgeInput)
    requires Confirmations(c, k, i.live) > 0
    ensures KeyPass(c, k, row, i).Some?
    ensures KeyPass(c, k, row, i).value.confidence ==
            Grown(Start(c, k, row, [i]), Power(1.0 - c.alpha, Confirmations(c, k, i.live)))
  {
    var seeded := KeySeeded(c, k, row, i);
    SeedsMeans(c, k, i);
    LiveMeans(c, k, i.live);
    ConfirmedGrown(c, k, seeded, i.live, i.ts);
    ConfirmedSome(c, k, seeded, i.live, i.ts);
  }

  lemma {:induction false} ConfirmedSome(c: MemoryConfig, k: EdgeKey, row: Option<EdgeRow>, live: seq<Edge>, ts: real)
    ensures KeyConfirmed(c, k, row, live, ts).Some? <==> row.Some? || Confirmations(c, k, live) > 0
  {
    if live != [] { ConfirmedSome(c, k, row, live[..|live| - 1], ts); }
  }

  lemma GrowsOn(c: MemoryConfig, k: EdgeKey, row: Option<EdgeRow>, i: EdgeInput, start: real, n: nat)
    requires row.Some? && row.value.confidence == Grown(start, Power(1.0 - c.alpha, n)) && Confirmations(c, k, i.live) > 0
    ensures KeyPass(c, k, row, i).Some?
    ensures KeyPass(c, k, row, i).value.confidence == Grown(start, Power(1.0 - c.alpha, n + Confirmations(c, k, i.live)))
  {
    ConfirmingPass(c, k, row, i);
    GrowthJoins(start, 1.0 - c.alpha, n, Confirmations(c, k, i.live));
  }

  /** n confirmations, over passes that each bring at least one, take the confidence from its start s to 1 - (1 - s)(1 - alpha)^n. */
  lemma {:induction false} GrowthClosedForm(c: MemoryConfig, k: EdgeKey, row: Option<EdgeRow>, inputs: seq<EdgeInput>)
    requires inputs != [] && forall j :: 0 <= j < |inputs| ==> Confirmations(c, k, inputs[j].live) > 0
    ensures var x := KeyRun(c, k, row, inputs);
            && x.Some?
            && x.value.confidence == Grown(Start(c, k, row, inputs), Power(1.0 - c.alpha, AllConfirmations(c, k, inputs)))
  {
    var n := |inputs| - 1;
    if n == 0 {
      OneConfirmingPass(c, k, row, inputs);
    } else {
      GrowthClosedForm(c, k, row, inputs[..n]);
      GrowsOn(c, k, KeyRun(c, k, row, inputs[..n]), inputs[n], Start(c, k, row, inputs), AllConfirmations(c, k, inputs[..n]));
    }
  }

  lemma OneConfirmingPass(c: MemoryConfig, k: EdgeKey, row: Option<EdgeRow>, inputs: seq<EdgeInput>)
    requires |inputs| == 1 && Confirmations(c, k, inputs[0].live) > 0
    ensures var x := KeyRun(c, k, row, inputs);
            && x.Some?
            && x.value.confidence == Grown(Start(c, k, row, inputs), Power(1.0 - c.alpha, AllConfirmations(c, k, inputs)))
  {
    assert inputs == [inputs[0]] && inputs[..0] == [];
    ConfirmingPass(c, k, row, inputs[0]);
  }

  // ---- What a row tells of its history ----

  /** Both workloads are present and no live edge joins them. */
  ghost predicate Idle(c: MemoryConfig, k: EdgeKey, i: EdgeInput) {
    k.signal == c.signal && k.src in i.present && k.dst in i.present && Confirmations(c, k, i.live) == 0
  }

  lemma DecaysMeans(c: MemoryConfig, k: EdgeKey, i: EdgeInput)
    ensures Decays(c, k, i) <==> Idle(c, k, i)
    ensures Seeds(c, k, i) ==> Confirmations(c, k, i.live) > 0 || Idle(c, k, i)
  {
    LiveMeans(c, k, i.live);
  }

  /** What the displayed state says: confirmed in this pass, resting on the floor, or on the way there. */
  ghost predicate ShowsState(x: EdgeRow, confirmed: bool) {
    if confirmed then x.state == (if x.visible then Active else Confirming)
    else if x.confidence <= x.base + FLOOR_SLACK && x.base > 0.0 then x.state == Steady
    else x.state == (if x.visible then Decaying else Hidden)
  }

  lemma {:induction false} ConfirmedState(c: MemoryConfig, k: EdgeKey, row: Option<EdgeRow>, live: seq<Edge>, ts: real)
    requires Confirmations(c, k, live) > 0
    ensures KeyConfirmed(c, k, row, live, ts).Some? && ShowsState(KeyConfirmed(c, k, row, live, ts).value, true)
  {
    if !Joins(c, k, live[|live| - 1]) { ConfirmedState(c, k, row, live[..|live| - 1], ts); }
  }

  /** A row changes only in a pass that confirms it or finds it idle, and then its state says which, and where it stands. */
  lemma StateShown(c: MemoryConfig, k: EdgeKey, row: Option<EdgeRow>, i: EdgeInput)
    ensures var x := KeyPass(c, k, row, i);
            if Confirmations(c, k, i.live) > 0 then x.Some? && ShowsState(x.value, true)
            else if Idle(c, k, i) then x.Some? ==> ShowsState(x.value, false)
            else x == row
  {
    LiveMeans(c, k, i.live);
    DecaysMeans(c, k, i);
    var seeded := KeySeeded(c, k, row, i);
    if Confirmations(c, k, i.live) > 0 {
      ConfirmedState(c, k, seeded, i.live, i.ts);
    } else {
      ConfirmedNone(c, k, seeded, i.live, i.ts);
    }
  }

  /** A key that is seeded and not confirmed holds exactly the prior after its first pass, unconfirmed and hidden. */
  lemma SeededRow(c: MemoryConfig, k: EdgeKey, i: EdgeInput)
    requires ValidConfig(c) && Witnessed(c, k, i) && Confirmations(c, k, i.live) == 0
    ensures KeyPass(c, k, None, i) ==
            Some(EdgeRow(c.prior, 0.0, 0, ["pvc"], 0, false, if c.prior > 0.0 then Steady else Hidden, i.ts, i.ts, i.ts, c.prior))
  {
    SeedsMeans(c, k, i);
    LiveMeans(c, k, i.live);
    ConfirmedNone(c, k, KeySeeded(c, k, None, i), i.live, i.ts);
    ProductBounds(1.0 - c.decay, c.prior);
  }

  /** Without a confirmation a row decays toward its floor if the key is idle, and is left alone otherwise. */
  lemma UnconfirmedPass(c: MemoryConfig, k: EdgeKey, x: EdgeRow, i: EdgeInput)
    requires k.signal == c.signal && Confirmations(c, k, i.live) == 0
    ensures var y := KeyPass(c, k, Some(x), i);
            && y.Some?
            && (if Idle(c, k, i)
                then y.value.confidence == Max(y.value.base, Product(x.confidence, 1.0 - c.decay)) && y.value.updated == i.ts && ShowsState(y.value, false)
                else y.value == x)
  {
    StateShown(c, k, Some(x), i);
    DecaysMeans(c, k, i);
    LiveMeans(c, k, i.live);
    ConfirmedNone(c, k, KeySeeded(c, k, Some(x), i), i.live, i.ts);
  }

  /** A witnessed key always has a row; a new one starts from the prior. */
  lemma WitnessedPass(c: MemoryConfig, k: EdgeKey, row: Option<EdgeRow>, i: EdgeInput)
    requires ValidConfig(c) && Witnessed(c, k, i)
    ensures KeyPass(c, k, row, i).Some?
    ensures row.None? && Confirmations(c, k, i.live) == 0 ==>
              KeyPass(c, k, row, i) ==
              Some(EdgeRow(c.prior, 0.0, 0, ["pvc"], 0, false, if c.prior > 0.0 then Steady else Hidden, i.ts, i.ts, i.ts, c.prior))
    ensures row.None? && Confirmations(c, k, i.live) > 0 ==>
              KeyPass(c, k, row, i).value.confidence == Grown(c.prior, Power(1.0 - c.alpha, Confirmations(c, k, i.live)))
  {
    SeedsMeans(c, k, i);
    ConfirmedSome(c, k, KeySeeded(c, k, row, i), i.live, i.ts);
    if row.None? && Confirmations(c, k, i.live) == 0 { SeededRow(c, k, i); }
    if row.None? && Confirmations(c, k, i.live) > 0 { ConfirmingPass(c, k, row, i); }
  }

  /** The last of the live edges that join the key's workloads. */
  ghost function LastJoining(c: MemoryConfig, k: EdgeKey, live: seq<Edge>): Option<Edge> {
    if live == [] then None
    else if Joins(c, k, live[|live| - 1]) then Some(live[|live| - 1])
    else LastJoining(c, k, live[..|live| - 1])
  }

  /** What the history of a key comes to: its confirmations, the last edge that confirmed it, and when what happened. */
  datatype History = History(hits: nat, last: Option<Edge>, first: Option<real>, confirmed: Option<real>, touched: Option<real>)

  ghost function HistoryOf(c: MemoryConfig, k: EdgeKey, inputs: seq<EdgeInput>): History {
    if inputs == [] then History(0, None, None, None, None)
    else
      var h, i := HistoryOf(c, k, inputs[..|inputs| - 1]), inputs[|inputs| - 1];
      var live := Confirmations(c, k, i.live) > 0;
      var seen := h.first.Some? || live || Witnessed(c, k, i);
      History(h.hits + Confirmations(c, k, i.live),
              if live then LastJoining(c, k, i.live) else h.last,
              if h.first.Some? then h.first else if seen then Some(i.ts) else None,
              if live then Some(i.ts) else h.confirmed,
              if seen && (live || Idle(c, k, i)) then Some(i.ts) else h.touched)
  }

  /** The row agrees with the history. */
  ghost predicate Tells(row: Option<EdgeRow>, h: History) {
    if row.None? then h == History(0, None, None, None, None)
    else
      var x := row.value;
      && h.first == Some(x.firstSeen) && h.touched == Some(x.updated) && x.hits == h.hits
      && (if h.last.Some? then h.confirmed == Some(x.lastSeen) && x.r == h.last.value.r && x.lag == h.last.value.lag && x.evidence == h.last.value.evidence
          else h.confirmed == None && h.hits == 0 && x.lastSeen == x.firstSeen && x.r == 0.0 && x.lag == 0 && x.evidence == ["pvc"])
  }

  lemma {:induction false} ConfirmedTells(c: MemoryConfig, k: EdgeKey, row: Option<EdgeRow>, live: seq<Edge>, ts: real)
    requires Confirmations(c, k, live) > 0
    ensures var x, e := KeyConfirmed(c, k, row, live, ts), LastJoining(c, k, live);
            && x.Some? && e.Some?
            && x.value.hits == (if row.Some? then row.value.hits else 0) + Confirmations(c, k, live)
            && x.value.r == e.value.r && x.value.lag == e.value.lag && x.value.evidence == e.value.evidence
            && x.value.firstSeen == (if row.Some? then row.value.firstSeen else ts)
            && x.value.lastSeen == ts && x.value.updated == ts
  {
    var front := live[..|live| - 1];
    if Confirmations(c, k, front) > 0 {
      ConfirmedTells(c, k, row, front, ts);
    } else {
      LiveMeans(c, k, front);
      ConfirmedNone(c, k, row, front, ts);
    }
  }

  lemma TellsNext(c: MemoryConfig, k: EdgeKey, row: Option<EdgeRow>, inputs: seq<EdgeInput>)
    requires inputs != [] && Tells(row, HistoryOf(c, k, inputs[..|inputs| - 1]))
    ensures Tells(KeyPass(c, k, row, inputs[|inputs| - 1]), HistoryOf(c, k, inputs))
  {
    var i := inputs[|inputs| - 1];
    var seeded := KeySeeded(c, k, row, i);
    SeedsMeans(c, k, i);
    DecaysMeans(c, k, i);
    LiveMeans(c, k, i.live);
    if Confirmations(c, k, i.live) > 0 {
      ConfirmedTells(c, k, seeded, i.live, i.ts);
    } else {
      ConfirmedNone(c, k, seeded, i.live, i.ts);
    }
  }

  /** After every run a row counts its confirmations, shows the last of them, and dates what happened to it. */
  lemma {:induction false} RowTellsHistory(c: MemoryConfig, k: EdgeKey, inputs: seq<EdgeInput>)
    ensures Tells(KeyRun(c, k, None, inputs), HistoryOf(c, k, inputs))
  {
    if inputs != [] {
      RowTellsHistory(c, k, inputs[..|inputs| - 1]);
      TellsNext(c, k, KeyRun(c, k, None, inputs[..|inputs| - 1]), inputs);
    }
  }

  /** A pass in which both workloads are present, the pair is not live, and seeding does not lift the floor. */
  ghost predicate Quiet(c: MemoryConfig, k: EdgeKey, base: real, i: EdgeInput) {
    Decays(c, k, i) && (Seeds(c, k, i) ==> base >= c.prior)
  }

  lemma DecayStep(base: real, conf: real, q: real, rest: real)
    requires 0.0 <= base && 0.0 <= rest <= 1.0
    ensures Max(base, Product(Max(base, Product(conf, q)), rest)) == Max(base, Product(conf, Product(q, rest)))
  {
  }

  lemma QuietPass(c: MemoryConfig, k: EdgeKey, row: EdgeRow, i: EdgeInput)
    requires Quiet(c, k, row.base, i)
    ensures KeyPass(c, k, Some(row), i) == Some(DecayRow(c, row, i.ts))
  {
    assert KeySeeded(c, k, Some(row), i) == Some(row);
    ConfirmedNone(c, k, Some(row), i.live, i.ts);
  }

  /** k quiet passes from confidence c give max(base, c(1 - decay)^k). */
  lemma {:induction false} DecayClosedForm(c: MemoryConfig, k: EdgeKey, row: EdgeRow, inputs: seq<EdgeInput>)
    requires ValidConfig(c) && RowOk(c, row)
    requires forall j :: 0 <= j < |inputs| ==> Quiet(c, k, row.base, inputs[j])
    ensures var x := KeyRun(c, k, Some(row), inputs);
            x.Some? && x.value.base == row.base
            && x.value.confidence == Max(row.base, Product(row.confidence, Power(1.0 - c.decay, |inputs|)))
  {
    if inputs == [] {
      assert Product(row.confidence, 1.0) == row.confidence;
    } else {
      var n := |inputs| - 1;
      DecayClosedForm(c, k, row, inputs[..n]);
      QuietPass(c, k, KeyRun(c, k, Some(row), inputs[..n]).value, inputs[n]);
      DecayStep(row.base, row.confidence, Power(1.0 - c.decay, n), 1.0 - c.decay);
    }
  }
}
