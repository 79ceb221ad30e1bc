/** Resets composed with the registry's file system steps and with whoever else writes rows. */
module ResetProtocol {
  import opened Text
  import opened Options
  import opened FixtureReset
  import opened RegistryMarkers
  import opened RegistrySafety
  import P = RegistryProtocol

  // ---- Ids in files and in rows ----

  function Name(id: Text): string {
    seq(|id|, i requires 0 <= i < |id| => if id[i] < 0x80 then id[i] as char else '?')
  }

  /** The row ids that the registry's pattern admits. */
  predicate RegistryId(id: string) {
    (forall i :: 0 <= i < |id| ==> id[i] as int < 0x80) && ValidId(Ascii(id))
  }

  lemma NameIsRegistryId(id: Text)
    requires ValidId(id)
    ensures RegistryId(Name(id)) && Ascii(Name(id)) == id
  {
    assert forall i :: 0 <= i < |id| ==> id[i] < 0x80;
    assert Ascii(Name(id)) == id;
  }

  /** The ids of a listing, as rows have them. */
  function Ids(scan: P.Scan): set<string> {
    set id | id in scan.seen :: Name(id)
  }

  /** What unregistering is given. */
  function Given(scan: P.Scan): set<Text> {
    scan.seen.Keys
  }

  // ---- The composed machine ----

  /** `since` counts the registry's events before the reset began to read; `scan` is what it read. */
  datatype Reset =
    | Listing(reader: nat, since: nat)
    | Loaded(scan: P.Scan)
    | Committed(scan: P.Scan)
    | Seeded(scan: P.Scan)

  /**
   * `used` holds every liquidation id ever given out, `removers` the unregister calls of resets, and `others` the ids
   * that unregister calls of anybody else have unlinked.
   */
  datatype World = World(
    files: P.State,
    tables: Tables,
    used: set<string>,
    resets: map<nat, Reset>,
    removers: set<nat>,
    others: set<Text>)

  /** The database's own registry directory, and its baseline. */
  datatype Setting = Setting(target: Target, baseline: Baseline)

  datatype Act =
    | ChangeTables(tables: Tables)
    | Files(l: P.Step)
    | BeginReset(r: nat, p: nat)
    | Load(r: nat)
    | Commit(r: nat)
    | Reseed(r: nat, tables: Tables)
    | BeginUnregister(r: nat, p: nat)
    | CrashReset(r: nat)

  /**
   * Whoever writes rows, new liquidations get ids never used before, or ids that no registry admits, as
   * fixtures do.
   */
  predicate FreshRows(w: World, tables: Tables) {
    forall id :: id in tables.liquidations && id !in w.tables.liquidations && RegistryId(id) ==> id !in w.used
  }

  /** An unlink in the database's directory by a call that no reset began. */
  predicate OthersUnlink(c: Setting, w: World, l: P.Step) {
    && l.UnlinkMarker? && l.p !in w.removers && l.p in w.files.procs
    && w.files.procs[l.p].Unregistering? && w.files.procs[l.p].u.target == c.target
  }

  ghost predicate Step(c: Setting, w: World, a: Act, w': World) {
    match a
    case ChangeTables(tables) =>
      FreshRows(w, tables) && w' == w.(tables := tables, used := w.used + tables.liquidations.Keys)
    case Files(l) =>
      && P.Next(w.files, l, w'.files)
      // a row is registered under the id it was given
      && (l.BeginRegister? && l.target == c.target ==> Name(l.id) in w.used)
      && w' == w.(files := w'.files,
                  removers := if l.Crash? then w.removers - {l.p} else w.removers,
                  others := if OthersUnlink(c, w, l) then w.others + {l.id} else w.others)
    case BeginReset(r, p) =>
      && r !in w.resets && P.Next(w.files, P.BeginRead(p, c.target), w'.files)
      && w' == w.(files := w'.files, resets := w.resets[r := Listing(p, |w.files.history|)])
    case Load(r) =>
      r in w.resets && w.resets[r].Listing? &&
      var p := w.resets[r].reader;
      p in w.files.procs && w.files.procs[p].Read? &&
      var scan := w.files.procs[p].result;
      scan.target == c.target && scan.since == w.resets[r].since &&
      w' == w.(resets := w.resets[r := Loaded(scan)])
    case Commit(r) =>
      r in w.resets && w.resets[r].Loaded? && Resettable(w.tables, Ids(w.resets[r].scan), c.baseline) &&
      w' == w.(tables := Remaining(w.tables, Ids(w.resets[r].scan), c.baseline),
                  resets := w.resets[r := Committed(w.resets[r].scan)])
    case Reseed(r, tables) =>
      r in w.resets && w.resets[r].Committed? && FreshRows(w, tables) &&
      w' == w.(tables := tables, used := w.used + tables.liquidations.Keys,
                  resets := w.resets[r := Seeded(w.resets[r].scan)])
    case BeginUnregister(r, p) =>
      && r in w.resets && w.resets[r].Seeded?
      && P.Next(w.files, P.BeginUnregister(p, c.target, Given(w.resets[r].scan)), w'.files)
      && w' == w.(files := w'.files, removers := w.removers + {p})
    case CrashReset(r) =>
      r in w.resets && w' == w.(resets := w.resets - {r})
  }

  ghost predicate StepAt(c: Setting, worlds: seq<World>, acts: seq<Act>, i: nat)
    requires |worlds| == |acts| + 1 && i < |acts|
  {
    Step(c, worlds[i], acts[i], worlds[i + 1])
  }

  /** The registry starts empty; rows may already be there. */
  ghost predicate Behaviour(c: Setting, worlds: seq<World>, acts: seq<Act>) {
    && |worlds| == |acts| + 1
    && c.target.Valid()
    && worlds[0] == World(P.Init(), worlds[0].tables, worlds[0].used, map[], {}, {})
    && worlds[0].tables.liquidations.Keys <= worlds[0].used
    && forall i: nat :: i < |acts| ==> StepAt(c, worlds, acts, i)
  }

  // ---- What every step keeps ----

  /** The row of the id is gone, and its id will not be given out again. */
  predicate Gone(tables: Tables, used: set<string>, id: string) {
    id in used && RegistryId(id) && id !in tables.liquidations
  }

  ghost predicate AllGone(w: World, ids: set<Text>) {
    forall id :: id in ids ==> Gone(w.tables, w.used, Name(id))
  }

  predicate EventOk(c: Setting, w: World, e: P.Event) {
    e.dir == KeyText(c.target) ==>
      match e
      case Added(_, id) => ValidId(id) && Name(id) in w.used
      case Removed(_, id) => Gone(w.tables, w.used, Name(id)) || id in w.others
  }

  ghost predicate HistoryOk(c: Setting, w: World) {
    forall i :: 0 <= i < |w.files.history| ==> EventOk(c, w, w.files.history[i])
  }

  /** Calls under way register ids that were given out; those of resets unlink ids whose rows are gone. */
  ghost predicate CallOk(c: Setting, w: World, p: nat)
    requires p in w.files.procs
  {
    && (w.files.procs[p].Registering? && w.files.procs[p].r.target == c.target ==>
        Name(w.files.procs[p].r.id) in w.used)
    && (p in w.removers && w.files.procs[p].Unregistering? ==> AllGone(w, w.files.procs[p].u.todo))
  }

  ghost predicate CallsOk(c: Setting, w: World) {
    && (forall p :: p in w.files.procs ==> CallOk(c, w, p))
    && (forall p :: p in w.removers ==> p in w.files.procs)
  }

  /** A reset holds a sound listing; once it has committed, the rows it listed are gone. */
  ghost predicate ResetOk(c: Setting, w: World, r: Reset) {
    !r.Listing? ==>
      && r.scan.target == c.target && r.scan.phase.Checking? && P.ScanSound(w.files.history, r.scan)
      && (!r.Loaded? ==> AllGone(w, r.scan.seen.Keys))
  }

  ghost predicate Sound(c: Setting, w: World) {
    && c.target.Valid() && P.Inv(w.files)
    && w.tables.liquidations.Keys <= w.used
    && HistoryOk(c, w)
    && CallsOk(c, w)
    && forall r :: r in w.resets ==> ResetOk(c, w, w.resets[r])
  }

  /** Nothing given out is forgotten, and nothing gone comes back. */
  ghost predicate Advances(w: World, w': World) {
    && w.used <= w'.used && w.others <= w'.others
    && forall id :: Gone(w.tables, w.used, id) ==> Gone(w'.tables, w'.used, id)
  }

  lemma StepAdvances(c: Setting, w: World, a: Act, w': World)
    requires Step(c, w, a, w') && w.tables.liquidations.Keys <= w.used
    ensures Advances(w, w') && w'.tables.liquidations.Keys <= w'.used
  {
  }

  /** What a registry step adds to the history. */
  ghost predicate AddsEvent(s: P.State, l: P.Step, s': P.State) {
    || s'.history == s.history
    || (l.Link? && l.p in s.procs && s.procs[l.p].Registering?
        && s'.history == s.history + [P.Added(KeyText(s.procs[l.p].r.target), s.procs[l.p].r.id)])
    || (l.UnlinkMarker? && l.p in s.procs && s.procs[l.p].Unregistering? && l.id in s.procs[l.p].u.todo
        && s'.history == s.history + [P.Removed(KeyText(s.procs[l.p].u.target), l.id)])
  }

  lemma NextAddsEvent(s: P.State, l: P.Step, s': P.State)
    requires P.Next(s, l, s')
    ensures AddsEvent(s, l, s')
  {
  }

  /** A registry step leaves the other calls alone. */
  lemma OtherCalls(s: P.State, l: P.Step, s': P.State, p: nat)
    requires P.Next(s, l, s') && p != l.p
    ensures (p in s'.procs <==> p in s.procs) && (p in s.procs ==> s'.procs[p] == s.procs[p])
  {
  }

  lemma EventStays(c: Setting, w: World, w': World, e: P.Event)
    requires EventOk(c, w, e) && Advances(w, w')
    ensures EventOk(c, w', e)
  {
  }

  /** The one event of a registry step is of an id that was given out, or of one whose row is gone. */
  lemma NewEventOk(c: Setting, w: World, l: P.Step, files': P.State, e: P.Event)
    requires c.target.Valid() && P.Inv(w.files) && CallsOk(c, w) && P.Next(w.files, l, files')
    requires files'.history == w.files.history + [e]
    ensures EventOk(c, w, e) || (e.Removed? && l.UnlinkMarker? && e.id == l.id && OthersUnlink(c, w, l))
  {
    NextAddsEvent(w.files, l, files');
    assert files'.history[|w.files.history|] == e;
    var proc := w.files.procs[l.p];
    assert CallOk(c, w, l.p) && P.ProcSound(w.files.history, proc);
    var target := if l.Link? then proc.r.target else proc.u.target;
    if KeyText(target) == KeyText(c.target) {
      KeyTextInjective(target, c.target);
    }
  }

  /** The history is as it was, or one event longer. */
  predicate Longer(h: seq<P.Event>, h': seq<P.Event>) {
    h' == h || (|h'| == |h| + 1 && h'[..|h|] == h)
  }

  lemma HistoryKept(c: Setting, w: World, w': World)
    requires HistoryOk(c, w) && Advances(w, w') && Longer(w.files.history, w'.files.history)
    requires w'.files.history != w.files.history ==> EventOk(c, w', w'.files.history[|w.files.history|])
    ensures HistoryOk(c, w')
  {
    var h, h' := w.files.history, w'.files.history;
    forall i | 0 <= i < |h'| ensures EventOk(c, w', h'[i]) {
      if i < |h| {
        assert h'[i] == h'[..|h|][i];
        EventStays(c, w, w', h[i]);
      }
    }
  }

  lemma StepHistory(c: Setting, w: World, l: P.Step, w': World)
    requires c.target.Valid() && P.Inv(w.files) && CallsOk(c, w) && HistoryOk(c, w)
    requires P.Next(w.files, l, w'.files) && Advances(w, w') && (OthersUnlink(c, w, l) ==> l.id in w'.others)
    ensures HistoryOk(c, w') && Longer(w.files.history, w'.files.history)
  {
    NextAddsEvent(w.files, l, w'.files);
    if w'.files.history != w.files.history {
      var e := w'.files.history[|w.files.history|];
      NewEventOk(c, w, l, w'.files, e);
      if EventOk(c, w, e) {
        EventStays(c, w, w', e);
      }
    }
    HistoryKept(c, w, w');
  }

  lemma CallStays(c: Setting, w: World, w': World, p: nat)
    requires p in w.files.procs && p in w'.files.procs && CallOk(c, w, p) && Advances(w, w')
    requires w'.files.procs[p] == w.files.procs[p] && (p in w'.removers ==> p in w.removers)
    ensures CallOk(c, w', p)
  {
  }

  /** What a step makes of its own call. */
  lemma OwnCall(s: P.State, l: P.Step, s': P.State)
    requires P.Next(s, l, s') && l.p in s'.procs
    ensures s'.procs[l.p].Registering? && !l.BeginRegister? ==>
              l.p in s.procs && s.procs[l.p].Registering? && s'.procs[l.p].r.target == s.procs[l.p].r.target
              && s'.procs[l.p].r.id == s.procs[l.p].r.id
    ensures s'.procs[l.p].Unregistering? && !l.BeginUnregister? ==>
              l.p in s.procs && s.procs[l.p].Unregistering? && s'.procs[l.p].u.todo <= s.procs[l.p].u.todo
    ensures l.BeginRegister? ==>
            s'.procs[l.p].Registering? && s'.procs[l.p].r.target == l.target && s'.procs[l.p].r.id == l.id
    ensures l.BeginUnregister? ==>
            l.p !in s.procs && s'.procs[l.p] == P.Unregistering(P.BeginRemoval(l.target, l.given))
    ensures !l.Crash?
  {
  }

  /** A reset unlinks ids whose rows are gone. */
  ghost predicate RemovesGone(w: World, l: P.Step, w': World) {
    l.BeginUnregister? && l.p in w'.removers && l.p !in w.removers ==>
      AllGone(w, P.BeginRemoval(l.target, l.given).todo)
  }

  lemma CallsKept(c: Setting, w: World, l: P.Step, w': World)
    requires CallsOk(c, w) && P.Next(w.files, l, w'.files) && Advances(w, w')
    requires l.BeginRegister? && l.target == c.target ==> Name(l.id) in w.used
    requires w'.removers == (if l.Crash? then w.removers - {l.p} else w.removers)
          || (l.BeginUnregister? && w'.removers == w.removers + {l.p})
    requires RemovesGone(w, l, w')
    ensures CallsOk(c, w')
  {
    forall p | p in w'.files.procs ensures CallOk(c, w', p) {
      if p != l.p {
        OtherCalls(w.files, l, w'.files, p);
        CallStays(c, w, w', p);
      } else {
        OwnCall(w.files, l, w'.files);
        assert p in w.files.procs ==> CallOk(c, w, p);
      }
    }
    forall p | p in w'.removers ensures p in w'.files.procs {
      if p != l.p {
        OtherCalls(w.files, l, w'.files, p);
      }
    }
  }

  lemma ScanStays(h: seq<P.Event>, h': seq<P.Event>, scan: P.Scan)
    requires P.ScanSound(h, scan) && Longer(h, h')
    ensures P.ScanSound(h', scan)
  {
    if h' != h {
      P.ScanGrows(h, h'[|h|], scan);
      assert h' == h + [h'[|h|]];
    }
  }

  lemma ResetStays(c: Setting, w: World, w': World, r: Reset)
    requires ResetOk(c, w, r) && Advances(w, w') && Longer(w.files.history, w'.files.history)
    ensures ResetOk(c, w', r)
  {
    if !r.Listing? {
      ScanStays(w.files.history, w'.files.history, r.scan);
    }
  }

  // ---- The acts on files ----

  lemma FilesStay(c: Setting, w: World, l: P.Step, w': World)
    requires Sound(c, w) && P.Next(w.files, l, w'.files) && Advances(w, w')
    requires w'.tables.liquidations.Keys <= w'.used
    requires OthersUnlink(c, w, l) ==> l.id in w'.others
    requires l.BeginRegister? && l.target == c.target ==> Name(l.id) in w.used
    requires w'.removers == (if l.Crash? then w.removers - {l.p} else w.removers)
          || (l.BeginUnregister? && w'.removers == w.removers + {l.p})
    requires RemovesGone(w, l, w')
    requires forall r :: r in w'.resets ==> w'.resets[r].Listing? || (r in w.resets && w'.resets[r] == w.resets[r])
    ensures Sound(c, w')
  {
    StepKeepsInv(w.files, l, w'.files);
    StepHistory(c, w, l, w');
    CallsKept(c, w, l, w');
    forall r | r in w'.resets ensures ResetOk(c, w', w'.resets[r]) {
      if !w'.resets[r].Listing? {
        ResetStays(c, w, w', w'.resets[r]);
      }
    }
  }

  /** A valid id names its own file. */
  lemma GivenIsTodo(c: Setting, w: World, scan: P.Scan)
    requires P.ScanSound(w.files.history, scan)
    ensures P.BeginRemoval(c.target, Given(scan)).todo == scan.seen.Keys
  {
    forall id | id in scan.seen ensures ValidateLiquidationId(id) == Ok(id) {
      TrimUnpads([], id, []);
      assert [] + id + [] == id;
    }
  }

  lemma FileActKeepsSound(c: Setting, w: World, a: Act, w': World)
    requires Sound(c, w) && Step(c, w, a, w') && (a.Files? || a.BeginReset? || a.BeginUnregister?)
    ensures Sound(c, w')
  {
    StepAdvances(c, w, a, w');
    match a
    case Files(l) => FilesStay(c, w, l, w');
    case BeginReset(r, p) => FilesStay(c, w, P.BeginRead(p, c.target), w');
    case BeginUnregister(r, p) =>
      GivenIsTodo(c, w, w.resets[r].scan);
      FilesStay(c, w, P.BeginUnregister(p, c.target, Given(w.resets[r].scan)), w');
  }

  // ---- The acts on tables ----

  lemma {:induction false} ReplayHasAdded(h: seq<P.Event>, dir: Text, id: Text) returns (i: nat)
    requires (dir, id) in P.Replay(h)
    ensures i < |h| && h[i] == P.Added(dir, id)
  {
    if h[|h| - 1] == P.Added(dir, id) {
      i := |h| - 1;
    } else {
      i := ReplayHasAdded(h[..|h| - 1], dir, id);
    }
  }

  /** A listed id was given out. */
  lemma ListedWasGiven(c: Setting, w: World, scan: P.Scan, id: Text)
    requires HistoryOk(c, w) && P.ScanSound(w.files.history, scan) && scan.target == c.target && scan.phase.Checking?
    requires id in scan.seen
    ensures Name(id) in w.used && RegistryId(Name(id))
  {
    var h := w.files.history;
    var i := ReplayHasAdded(h[..scan.seen[id]], KeyText(c.target), id);
    assert EventOk(c, w, h[i]);
    NameIsRegistryId(id);
  }

  /** The commit deletes the rows it listed. */
  lemma CommitTakesListed(c: Setting, w: World, scan: P.Scan, w': World)
    requires HistoryOk(c, w) && P.ScanSound(w.files.history, scan) && scan.target == c.target && scan.phase.Checking?
    requires w'.used == w.used && w'.tables == Remaining(w.tables, Ids(scan), c.baseline)
    ensures AllGone(w', scan.seen.Keys)
  {
    forall id | id in scan.seen ensures Gone(w'.tables, w'.used, Name(id)) {
      ListedWasGiven(c, w, scan, id);
      assert Name(id) in Ids(scan);
    }
  }

  /** With the files and the calls as they were, it is the resets that matter. */
  lemma TablesStay(c: Setting, w: World, w': World)
    requires Sound(c, w) && Advances(w, w') && w'.files == w.files && w'.removers == w.removers
    requires w'.tables.liquidations.Keys <= w'.used
    requires forall r :: r in w'.resets ==>
             (r in w.resets && w'.resets[r] == w.resets[r]) || ResetOk(c, w', w'.resets[r])
    ensures Sound(c, w')
  {
    HistoryKept(c, w, w');
    forall p | p in w'.files.procs ensures CallOk(c, w', p) {
      CallStays(c, w, w', p);
    }
    forall r | r in w'.resets ensures ResetOk(c, w', w'.resets[r]) {
      if r in w.resets && w'.resets[r] == w.resets[r] {
        ResetStays(c, w, w', w.resets[r]);
      }
    }
  }

  /** What a reset holds after its own act. */
  lemma OwnResetOk(c: Setting, w: World, a: Act, w': World)
    requires Sound(c, w) && Step(c, w, a, w') && (a.Load? || a.Commit? || a.Reseed?)
    ensures ResetOk(c, w', w'.resets[a.r])
  {
    StepAdvances(c, w, a, w');
    assert ResetOk(c, w, w.resets[a.r]);
    match a
    case Load(r) => assert P.ProcSound(w.files.history, w.files.procs[w.resets[r].reader]);
    case Commit(r) => CommitTakesListed(c, w, w.resets[r].scan, w');
    case Reseed(r, _) =>
  }

  lemma TableActKeepsSound(c: Setting, w: World, a: Act, w': World)
    requires Sound(c, w) && Step(c, w, a, w') && !a.Files? && !a.BeginReset? && !a.BeginUnregister?
    ensures Sound(c, w')
  {
    StepAdvances(c, w, a, w');
    if a.Load? || a.Commit? || a.Reseed? {
      OwnResetOk(c, w, a, w');
    }
    TablesStay(c, w, w');
  }

  /**
   * Every file system step, every write of rows and every crash keeps the composed invariant, and nothing gone
   * comes back.
   */
  lemma StepKeepsSound(c: Setting, w: World, a: Act, w': World)
    requires Sound(c, w) && Step(c, w, a, w')
    ensures Sound(c, w') && Advances(w, w')
  {
    StepAdvances(c, w, a, w');
    if a.Files? || a.BeginReset? || a.BeginUnregister? {
      FileActKeepsSound(c, w, a, w');
    } else {
      TableActKeepsSound(c, w, a, w');
    }
  }

  lemma {:induction false} BehaviourSound(c: Setting, worlds: seq<World>, acts: seq<Act>, i: nat, j: nat)
    requires Behaviour(c, worlds, acts) && i <= j < |worlds|
    ensures Sound(c, worlds[j]) && Advances(worlds[i], worlds[j])
    decreases j
  {
    if j == 0 {
    } else {
      BehaviourSound(c, worlds, acts, if i < j then i else j - 1, j - 1);
      assert StepAt(c, worlds, acts, j - 1);
      StepKeepsSound(c, worlds[j - 1], acts[j - 1], worlds[j]);
    }
  }

  // ---- What a reset may rely on ----

  /**
   * Whatever registrations, reads, resets, tests and crashes interleave, file system call by file system call: when
   * a call begun by a reset unlinks a marker of the database, the liquidation is gone, and it never comes back.
   */
  lemma UnlinkedIsGone(c: Setting, worlds: seq<World>, acts: seq<Act>, i: nat, j: nat)
    requires Behaviour(c, worlds, acts) && i < |acts| && i <= j < |worlds|
    requires acts[i].Files? && acts[i].l.UnlinkMarker? && acts[i].l.p in worlds[i].removers
    ensures Name(acts[i].l.id) !in worlds[j].tables.liquidations
  {
    var w, l := worlds[i], acts[i].l;
    BehaviourSound(c, worlds, acts, i, i);
    BehaviourSound(c, worlds, acts, i, j);
    assert StepAt(c, worlds, acts, i);
    assert CallOk(c, w, l.p);
    assert Gone(w.tables, w.used, Name(l.id));
  }

  /**
   * A liquidation whose registration was linked before a reset began to read is gone for good once that reset has
   * committed, also if another reset unregistered it meanwhile: unless somebody else unregistered it.
   */
  lemma ResetTakesRegistered(c: Setting, worlds: seq<World>, acts: seq<Act>, i: nat, j: nat, r: nat, at: nat, id: Text)
    requires Behaviour(c, worlds, acts) && i <= j < |worlds|
    requires r in worlds[i].resets && (worlds[i].resets[r].Committed? || worlds[i].resets[r].Seeded?)
    requires at < worlds[i].resets[r].scan.since && at < |worlds[i].files.history|
    requires worlds[i].files.history[at] == P.Added(KeyText(c.target), id) && id !in worlds[i].others
    ensures Name(id) !in worlds[j].tables.liquidations
  {
    var w, h, scan := worlds[i], worlds[i].files.history, worlds[i].resets[r].scan;
    BehaviourSound(c, worlds, acts, i, i);
    BehaviourSound(c, worlds, acts, i, j);
    assert ResetOk(c, w, w.resets[r]);
    if P.NeverRemoved(h, at, scan.phase.until, KeyText(c.target), id) {
      ListedIfRegistered(h, scan, at, id);
    } else {
      var m :| at <= m < scan.phase.until && h[m] == P.Removed(KeyText(c.target), id);
      assert EventOk(c, w, h[m]);
    }
    assert Gone(w.tables, w.used, Name(id));
  }
}
