/**
 * A reset that nobody disturbs: from any world of any behaviour it lists the registered liquidations, commits when
 * their rows may go, and takes them off the registry.
 */
module LoneReset {
  import opened Text
  import opened Options
  import opened FixtureReset
  import opened RegistryMarkers
  import opened Paths
  import opened RegistryCalls
  import opened ResetProtocol
  import P = RegistryProtocol

  ghost function Acts(c: Setting): (World, Act, World) -> bool {
    (w: World, a: Act, w': World) => Step(c, w, a, w')
  }

  function FileActs(steps: seq<P.Step>): seq<Act> {
    seq(|steps|, i requires 0 <= i < |steps| => Files(steps[i]))
  }

  /** The steps of a read, or of a removal that a reset began, change nothing but the files. */
  lemma FileStep(c: Setting, w: World, p: nat, call: Call, l: P.Step, files: P.State)
    requires Own(p, call)(w.files, l, files) && (call == ReadCall || (call == UnregisterCall && p in w.removers))
    ensures Step(c, w, Files(l), w.(files := files))
  {
  }

  lemma {:induction false} FileSteps(c: Setting, w: World, p: nat, call: Call, steps: seq<P.Step>, files: P.State)
    requires Leads(Own(p, call), w.files, steps, files)
    requires call == ReadCall || (call == UnregisterCall && p in w.removers)
    ensures Leads(Acts(c), w, FileActs(steps), w.(files := files))
    decreases |steps|
  {
    if steps == [] {
      assert w.(files := files) == w;
    } else {
      var next :| Own(p, call)(w.files, steps[0], next) && Leads(Own(p, call), next, steps[1..], files);
      FileStep(c, w, p, call, steps[0], next);
      FileSteps(c, w.(files := next), p, call, steps[1..], files);
      First(Acts(c), w, Files(steps[0]), w.(files := next), FileActs(steps[1..]), w.(files := files));
      assert [Files(steps[0])] + FileActs(steps[1..]) == FileActs(steps);
    }
  }

  lemma OneMoreAct(c: Setting, worlds: seq<World>, acts: seq<Act>, a: Act, w': World)
    requires Behaviour(c, worlds, acts) && Step(c, worlds[|acts|], a, w')
    ensures Behaviour(c, worlds + [w'], acts + [a])
  {
    var longer, taken := worlds + [w'], acts + [a];
    forall i: nat | i < |taken| ensures StepAt(c, longer, taken, i) {
      if i < |acts| {
        assert StepAt(c, worlds, acts, i);
      }
    }
  }

  lemma {:induction false} LeadsIsBehaviour(c: Setting, worlds: seq<World>, acts: seq<Act>, more: seq<Act>, w': World)
    returns (longer: seq<World>)
    requires Behaviour(c, worlds, acts) && Leads(Acts(c), worlds[|acts|], more, w')
    ensures Behaviour(c, longer, acts + more) && longer[|acts + more|] == w'
    decreases |more|
  {
    if more == [] {
      longer := worlds;
      assert acts + more == acts;
    } else {
      var next :| Acts(c)(worlds[|acts|], more[0], next) && Leads(Acts(c), next, more[1..], w');
      OneMoreAct(c, worlds, acts, more[0], next);
      longer := LeadsIsBehaviour(c, worlds + [next], acts + [more[0]], more[1..], w');
      assert acts + [more[0]] + more[1..] == acts + more;
    }
  }

  lemma Begins(c: Setting, w: World, r: nat, p: nat, begun: P.State) returns (w': World)
    requires r !in w.resets && P.Next(w.files, P.BeginRead(p, c.target), begun)
    ensures w' == w.(files := begun, resets := w.resets[r := Listing(p, |w.files.history|)])
    ensures Step(c, w, BeginReset(r, p), w')
  {
    w' := w.(files := begun, resets := w.resets[r := Listing(p, |w.files.history|)]);
  }

  lemma Loads(c: Setting, w: World, r: nat) returns (w': World)
    requires r in w.resets && w.resets[r].Listing? && w.resets[r].reader in w.files.procs
    requires var proc := w.files.procs[w.resets[r].reader];
             proc.Read? && proc.result.target == c.target && proc.result.since == w.resets[r].since
    ensures w' == w.(resets := w.resets[r := Loaded(w.files.procs[w.resets[r].reader].result)])
    ensures Step(c, w, Load(r), w')
  {
    w' := w.(resets := w.resets[r := Loaded(w.files.procs[w.resets[r].reader].result)]);
  }

  /** The reset lists everything registered, and nothing else changes. */
  lemma LoneLoads(c: Setting, w: World, r: nat, p: nat)
    returns (acts: seq<Act>, w': World, files: P.State, scan: P.Scan)
    requires c.target.Valid() && P.Inv(w.files) && r !in w.resets && p !in w.files.procs
    ensures Leads(Acts(c), w, acts, w') && w' == w.(files := files, resets := w.resets[r := Loaded(scan)])
    ensures scan.seen.Keys == Listed(w.files, c.target) && files == P.Go(w.files, p, P.Read(scan))
  {
    var begun, steps;
    begun, steps, files := LoneReads(w.files, p, c.target);
    scan := files.procs[p].result;
    var listing := Begins(c, w, r, p, begun);
    FileSteps(c, listing, p, ReadCall, steps, files);
    w' := Loads(c, listing.(files := files), r);
    assert listing.resets[r := Loaded(scan)] == w.resets[r := Loaded(scan)];
    Then(Acts(c), listing, FileActs(steps), listing.(files := files), Load(r), w');
    First(Acts(c), w, BeginReset(r, p), listing, FileActs(steps) + [Load(r)], w');
    acts := [BeginReset(r, p)] + (FileActs(steps) + [Load(r)]);
  }

  /** It commits, and the re-seed writes nothing. */
  lemma LoneCommits(c: Setting, w: World, r: nat) returns (acts: seq<Act>, w': World)
    requires r in w.resets && w.resets[r].Loaded? && Resettable(w.tables, Ids(w.resets[r].scan), c.baseline)
    requires w.tables.liquidations.Keys <= w.used
    ensures Leads(Acts(c), w, acts, w')
    ensures w' == w.(tables := Remaining(w.tables, Ids(w.resets[r].scan), c.baseline),
                     resets := w.resets[r := Seeded(w.resets[r].scan)])
  {
    var scan := w.resets[r].scan;
    var committed := w.(tables := Remaining(w.tables, Ids(scan), c.baseline), resets := w.resets[r := Committed(scan)]);
    assert Step(c, w, Commit(r), committed);
    w' := committed.(resets := committed.resets[r := Seeded(scan)]);
    assert w'.resets == w.resets[r := Seeded(scan)];
    assert committed.used + committed.tables.liquidations.Keys == committed.used;
    assert Step(c, committed, Reseed(r, committed.tables), w');
    assert Leads(Acts(c), w', [], w');
    First(Acts(c), committed, Reseed(r, committed.tables), w', [], w');
    First(Acts(c), w, Commit(r), committed, [Reseed(r, committed.tables)] + [], w');
    acts := [Commit(r)] + ([Reseed(r, committed.tables)] + []);
  }

  lemma BeginsRemoving(c: Setting, w: World, r: nat, q: nat) returns (w': World)
    requires c.target.Valid() && r in w.resets && w.resets[r].Seeded? && q !in w.files.procs
    ensures Step(c, w, BeginUnregister(r, q), w') && w' == w.(files := w'.files, removers := w.removers + {q})
    ensures q in w'.files.procs && w'.files == P.Go(w.files, q, w'.files.procs[q])
    ensures w'.files.procs[q].Unregistering? && w'.files.procs[q].u.target == c.target
    ensures w'.files.procs[q].u.todo == Named(Given(w.resets[r].scan))
  {
    var files := BeginsUnregistering(w.files, q, c.target, Given(w.resets[r].scan));
    w' := w.(files := files, removers := w.removers + {q});
  }

  /** It takes everything that it listed off the registry. */
  lemma LoneRemoves(c: Setting, w: World, r: nat, q: nat) returns (acts: seq<Act>, w': World)
    requires c.target.Valid() && r in w.resets && w.resets[r].Seeded? && q !in w.files.procs
    ensures Leads(Acts(c), w, acts, w') && w' == w.(files := w'.files, removers := w.removers + {q})
    ensures forall name :: name in w'.files.markers <==>
              name in w.files.markers && !(name.0 == KeyText(c.target) && name.1 in Named(Given(w.resets[r].scan)))
  {
    var begun := BeginsRemoving(c, w, r, q);
    var steps, files := LoneTakes(begun.files, q);
    FileSteps(c, begun, q, UnregisterCall, steps, files);
    w' := begun.(files := files);
    First(Acts(c), w, BeginUnregister(r, q), begun, FileActs(steps), w');
    acts := [BeginUnregister(r, q)] + FileActs(steps);
  }

  lemma NamesThemselves(s: P.State, t: Target)
    requires P.MarkersComplete(s) && t.Valid()
    ensures Named(Listed(s, t)) == Listed(s, t)
  {
    forall id | id in Listed(s, t) ensures ValidateLiquidationId(id) == Ok(id) {
      assert (KeyText(t), id) in s.markers;
      assert [] + id + [] == id;
      TrimUnpads([], id, []);
    }
    forall raw | raw in Listed(s, t) ensures raw in Named(Listed(s, t)) {
      assert ValidateLiquidationId(raw).value == raw;
    }
  }

  /** The rows that the registry names. */
  function RegisteredIds(w: World, t: Target): set<string> {
    set id | id in Listed(w.files, t) :: Name(id)
  }

  /**
   * From any world of any behaviour in which the registered rows may go, an undisturbed reset commits: it leaves the
   * declared rest of the tables, no file in the directory of its target, and all files of other targets.
   */
  lemma LoneResetResets(c: Setting, worlds: seq<World>, acts: seq<Act>, r: nat, p: nat, q: nat)
    returns (longer: seq<World>, more: seq<Act>, w': World)
    requires Behaviour(c, worlds, acts)
    requires var w := worlds[|acts|];
             && r !in w.resets && p !in w.files.procs && q !in w.files.procs && p != q
             && Resettable(w.tables, RegisteredIds(w, c.target), c.baseline)
    ensures Behaviour(c, longer, acts + more) && longer[|acts + more|] == w'
    ensures var w := worlds[|acts|]; (
            && w'.tables == Remaining(w.tables, RegisteredIds(w, c.target), c.baseline)
            && (forall name :: name in w'.files.markers <==> name in w.files.markers && name.0 != KeyText(c.target))
            && r in w'.resets && w'.resets[r].Seeded? && w'.others == w.others)
  {
    var w := worlds[|acts|];
    BehaviourSound(c, worlds, acts, |acts|, |acts|);
    var a, b, d, w1, w2, files, scan;
    a, w1, files, scan := LoneLoads(c, w, r, p);
    assert Ids(scan) == RegisteredIds(w, c.target);
    b, w2 := LoneCommits(c, w1, r);
    d, w' := LoneRemoves(c, w2, r, q);
    NamesThemselves(w.files, c.target);
    OnlyOthersLeft(w.files, w'.files, c.target);
    Through(Acts(c), w, a, w1, b, w2);
    Through(Acts(c), w, a + b, w2, d, w');
    more := a + b + d;
    longer := LeadsIsBehaviour(c, worlds, acts, more, w');
  }

  lemma OnlyOthersLeft(s: P.State, s': P.State, t: Target)
    requires forall name :: name in s'.markers <==>
               name in s.markers && !(name.0 == KeyText(t) && name.1 in Listed(s, t))
    ensures forall name :: name in s'.markers <==> name in s.markers && name.0 != KeyText(t)
  {
  }
}
