/**
 * The calls of the registry when nobody disturbs them: from any state of any run, a register call leaves the marker, an
 * unregister call takes its ids off, and a read lists what is there.
 */
module RegistryCalls {
  import opened Text
  import opened Options
  import opened RegistryMarkers
  import opened RegistryProtocol
  import opened RegistrySafety
  import opened Paths

  ghost const NEXT: (State, Step, State) -> bool := (s: State, l: Step, s': State) => Next(s, l, s')

  datatype Call = RegisterCall | UnregisterCall | ReadCall | NoCall

  function CallOf(l: Step): Call {
    if l.Crash? then NoCall
    else if l.BeginUnregister? || l.UnlinkMarker? || l.FinishUnregister? then UnregisterCall
    else if l.BeginRead? || l.SeeEntry? || l.FinishScan? || l.CheckEntry? || l.FinishRead? then ReadCall
    else RegisterCall
  }

  /** A step of one call. */
  ghost function Own(p: nat, call: Call): (State, Step, State) -> bool {
    (s: State, l: Step, s': State) => l.p == p && CallOf(l) == call && Next(s, l, s')
  }

  lemma Before(p: nat, call: Call, s: State, l: Step, between: State, steps: seq<Step>, s': State)
    returns (more: seq<Step>)
    requires Next(s, l, between) && l.p == p && CallOf(l) == call && Leads(Own(p, call), between, steps, s')
    ensures more == [l] + steps && Leads(Own(p, call), s, more, s')
  {
    First(Own(p, call), s, l, between, steps, s');
    more := [l] + steps;
  }

  lemma OneMore(p: nat, call: Call, s: State, steps: seq<Step>, between: State, l: Step, s': State)
    returns (more: seq<Step>)
    requires Leads(Own(p, call), s, steps, between) && Next(between, l, s') && l.p == p && CallOf(l) == call
    ensures more == steps + [l] && Leads(Own(p, call), s, more, s')
  {
    Then(Own(p, call), s, steps, between, l, s');
    more := steps + [l];
  }

  lemma {:induction false} LeadsKeepsInv(s: State, steps: seq<Step>, s': State)
    requires Inv(s) && Leads(NEXT, s, steps, s')
    ensures Inv(s')
    decreases |steps|
  {
    if steps != [] {
      var between :| Next(s, steps[0], between) && Leads(NEXT, between, steps[1..], s');
      StepKeepsInv(s, steps[0], between);
      LeadsKeepsInv(between, steps[1..], s');
    }
  }

  /** Any state of any run may go on like that. */
  lemma {:induction false} LeadsIsRun(states: seq<State>, steps: seq<Step>, more: seq<Step>, s': State)
    returns (longer: seq<State>)
    requires Run(states, steps) && Leads(NEXT, states[|steps|], more, s')
    ensures Run(longer, steps + more) && longer[|steps + more|] == s'
    decreases |more|
  {
    if more == [] {
      longer := states;
      assert steps + more == steps;
    } else {
      var between :| Next(states[|steps|], more[0], between) && Leads(NEXT, between, more[1..], s');
      RunOneMore(states, steps, more[0], between);
      longer := LeadsIsRun(states + [between], steps + [more[0]], more[1..], s');
      assert steps + [more[0]] + more[1..] == steps + more;
    }
  }

  lemma RunOneMore(states: seq<State>, steps: seq<Step>, l: Step, s': State)
    requires Run(states, steps) && Next(states[|steps|], l, s')
    ensures Run(states + [s'], steps + [l])
  {
    var longer, taken := states + [s'], steps + [l];
    forall i | 0 <= i < |taken| ensures Next(longer[i], taken[i], longer[i + 1]) {
      if i < |steps| {
        assert Next(states[i], steps[i], states[i + 1]);
      }
    }
  }

  /** The ids of the files in the directory of a target. */
  function Listed(s: State, t: Target): set<Text> {
    set name | name in s.markers && name.0 == KeyText(t) :: name.1
  }

  lemma MarkerReadsBack(s: State, t: Target, id: Text)
    requires MarkersComplete(s) && t.Valid() && (KeyText(t), id) in s.markers
    ensures ValidId(id) && ReadMarker(s, t, id) == Ok(id)
  {
    MarkerAccepted(t, id, t, id);
  }

  // ---- Registering ----

  /** The call has a temporary file with these bytes, and nothing else has changed but its directory. */
  ghost predicate HasTemp(s: State, s': State, p: nat, r: Registration, temp: nat, inode: nat, bytes: Text) {
    && s'.pending == s.pending[temp := inode] && s'.bytes == s.bytes[inode := bytes]
    && s'.dirs == s.dirs + {KeyText(r.target)} && s'.markers == s.markers && s'.history == s.history
    && s'.procs == s.procs[p := Registering(r)]
  }

  function Registration0(s: State, t: Target, id: Text, phase: RegisterPhase): Registration {
    Registration(t, id, phase, |s.history|, 0)
  }

  lemma LoneBegins(s: State, p: nat, t: Target, id: Text) returns (steps: seq<Step>, s': State)
    requires p !in s.procs && t.Valid() && ValidId(id)
    ensures Leads(Own(p, RegisterCall), s, steps, s')
    ensures s' == Go(s, p, Registering(Registration0(s, t, id, DirectoryReady))).(dirs := s.dirs + {KeyText(t)})
  {
    var begun := Go(s, p, Registering(Registration0(s, t, id, Begun)));
    assert RegisterStep(s, BeginRegister(p, t, id), begun);
    steps := OneMore(p, RegisterCall, s, [], s, BeginRegister(p, t, id), begun);
    s' := Go(begun, p, Registering(Registration0(s, t, id, DirectoryReady))).(dirs := s.dirs + {KeyText(t)});
    assert RegisterStep(begun, MakeDirectory(p), s');
    steps := OneMore(p, RegisterCall, s, steps, begun, MakeDirectory(p), s');
  }

  lemma LoneWrites(s: State, p: nat, t: Target, id: Text, temp: nat, inode: nat) returns (steps: seq<Step>, s': State)
    requires p in s.procs && s.procs[p].Registering? && s.procs[p].r.phase.DirectoryReady?
    requires s.procs[p].r.target == t && s.procs[p].r.id == id && temp !in s.pending && inode !in s.bytes
    ensures Leads(Own(p, RegisterCall), s, steps, s')
    ensures s' == Go(s, p, Registering(s.procs[p].r.(phase := Written(temp, inode))))
                  .(pending := s.pending[temp := inode], bytes := s.bytes[inode := RawMarker(t, id)])
  {
    var r := s.procs[p].r;
    var created := Go(s, p, Registering(r.(phase := Writing(temp, inode))))
                   .(pending := s.pending[temp := inode], bytes := s.bytes[inode := []]);
    assert RegisterStep(s, CreateTemp(p, temp, inode), created);
    steps := OneMore(p, RegisterCall, s, [], s, CreateTemp(p, temp, inode), created);
    s' := Go(created, p, Registering(r.(phase := Written(temp, inode))))
          .(bytes := created.bytes[inode := RawMarker(t, id)]);
    assert RegisterStep(created, FinishWrite(p), s');
    steps := OneMore(p, RegisterCall, s, steps, created, FinishWrite(p), s');
  }

  /** Its file is linked, or was there, with its whole marker. */
  ghost predicate HasLinked(s: State, s': State, p: nat, t: Target, id: Text, temp: nat, inode: nat) {
    && p in s'.procs && s'.procs[p].Registering? && s'.procs == s.procs[p := s'.procs[p]]
    && s'.procs[p].r.target == t && s'.procs[p].r.id == id
    && (s'.procs[p].r.phase == Linked(temp) || s'.procs[p].r.phase == Verified(temp))
    && s'.markers.Keys == s.markers.Keys + {(KeyText(t), id)}
    && (forall name :: name in s.markers ==> s'.markers[name] == s.markers[name])
    && ReadMarker(s', t, id) == Ok(id)
    && s'.pending == s.pending[temp := inode] && s'.history == s.history + [Added(KeyText(t), id)]
  }

  lemma LoneLinks(s: State, w: State, p: nat, t: Target, id: Text, temp: nat, inode: nat)
    returns (steps: seq<Step>, s': State)
    requires (KeyText(t), id) !in s.markers
    requires HasTemp(s, w, p, Registration0(s, t, id, Written(temp, inode)), temp, inode, RawMarker(t, id))
    ensures Leads(Own(p, RegisterCall), w, steps, s') && HasLinked(s, s', p, t, id, temp, inode)
  {
    s' := Go(w, p, Registering(Registration0(s, t, id, Linked(temp)).(at := |s.history|)))
          .(markers := s.markers[(KeyText(t), id) := inode], history := s.history + [Added(KeyText(t), id)]);
    MarkerAccepted(t, id, t, id);
    assert RegisterStep(w, Link(p), s');
    steps := OneMore(p, RegisterCall, w, [], w, Link(p), s');
  }

  lemma LoneFinds(s: State, w: State, p: nat, t: Target, id: Text, temp: nat, inode: nat)
    returns (steps: seq<Step>, s': State)
    requires MarkersComplete(s) && t.Valid() && inode !in s.bytes && (KeyText(t), id) in s.markers
    requires HasTemp(s, w, p, Registration0(s, t, id, Written(temp, inode)), temp, inode, RawMarker(t, id))
    ensures Leads(Own(p, RegisterCall), w, steps, s') && HasLinked(s, s', p, t, id, temp, inode)
  {
    var found, more;
    steps, found := LoneFindsLink(w, p);
    MarkerReadsBack(s, t, id);
    assert ReadMarker(found, t, id) == ReadMarker(s, t, id);
    more, s' := LoneVerifies(found, p);
    Through(Own(p, RegisterCall), w, steps, found, more, s');
    steps := steps + more;
  }

  lemma LoneFindsLink(s: State, p: nat) returns (steps: seq<Step>, s': State)
    requires p in s.procs && s.procs[p].Registering? && s.procs[p].r.phase.Written?
    requires (KeyText(s.procs[p].r.target), s.procs[p].r.id) in s.markers
    ensures Leads(Own(p, RegisterCall), s, steps, s')
    ensures var r := s.procs[p].r;
            s' == Go(s, p, Registering(r.(phase := Found(r.phase.temp), at := |s.history|)))
                  .(history := s.history + [Added(KeyText(r.target), r.id)])
  {
    var r := s.procs[p].r;
    s' := Go(s, p, Registering(r.(phase := Found(r.phase.temp), at := |s.history|)))
          .(history := s.history + [Added(KeyText(r.target), r.id)]);
    assert RegisterStep(s, Link(p), s');
    steps := OneMore(p, RegisterCall, s, [], s, Link(p), s');
  }

  lemma LoneVerifies(s: State, p: nat) returns (steps: seq<Step>, s': State)
    requires p in s.procs && s.procs[p].Registering? && s.procs[p].r.phase.Found?
    requires ReadMarker(s, s.procs[p].r.target, s.procs[p].r.id).Ok?
    ensures Leads(Own(p, RegisterCall), s, steps, s')
    ensures s' == Go(s, p, Registering(s.procs[p].r.(phase := Verified(s.procs[p].r.phase.temp))))
  {
    s' := Go(s, p, Registering(s.procs[p].r.(phase := Verified(s.procs[p].r.phase.temp))));
    assert RegisterStep(s, ReadBack(p), s');
    steps := OneMore(p, RegisterCall, s, [], s, ReadBack(p), s');
  }

  /** The file is there with its whole marker, no other marker changed, and no temporary file is left. */
  ghost predicate HasRegistered(s: State, s': State, p: nat, t: Target, id: Text) {
    && p in s'.procs && s'.procs[p].Registered? && s'.procs == s.procs[p := s'.procs[p]]
    && s'.procs[p].registration.target == t && s'.procs[p].registration.id == id
    && s'.markers.Keys == s.markers.Keys + {(KeyText(t), id)}
    && (forall name :: name in s.markers ==> s'.markers[name] == s.markers[name])
    && ReadMarker(s', t, id) == Ok(id)
    && s'.pending == s.pending && s'.history == s.history + [Added(KeyText(t), id)]
  }

  lemma LoneCleans(s: State, w: State, p: nat, t: Target, id: Text, temp: nat, inode: nat)
    returns (steps: seq<Step>, s': State)
    requires temp !in s.pending && HasLinked(s, w, p, t, id, temp, inode)
    ensures Leads(Own(p, RegisterCall), w, steps, s') && HasRegistered(s, s', p, t, id)
  {
    s' := Go(w, p, Registered(w.procs[p].r)).(pending := w.pending - {temp});
    assert s'.pending == s.pending;
    assert RegisterStep(w, UnlinkTemp(p), s');
    steps := OneMore(p, RegisterCall, w, [], w, UnlinkTemp(p), s');
  }

  /** An undisturbed register call of a valid id returns, whether or not the id was registered already. */
  lemma LoneRegisters(s: State, p: nat, t: Target, id: Text, temp: nat, inode: nat)
    returns (steps: seq<Step>, s': State)
    requires MarkersComplete(s) && p !in s.procs && t.Valid() && ValidId(id) && temp !in s.pending && inode !in s.bytes
    ensures Leads(Own(p, RegisterCall), s, steps, s')
    ensures HasRegistered(s, s', p, t, id)
  {
    var ready, written, linked, b, c, d;
    steps, ready := LoneBegins(s, p, t, id);
    b, written := LoneWrites(ready, p, t, id, temp, inode);
    if (KeyText(t), id) in s.markers {
      c, linked := LoneFinds(s, written, p, t, id, temp, inode);
    } else {
      c, linked := LoneLinks(s, written, p, t, id, temp, inode);
    }
    d, s' := LoneCleans(s, linked, p, t, id, temp, inode);
    var own := Own(p, RegisterCall);
    Through(own, s, steps, ready, b, written);
    Through(own, s, steps + b, written, c, linked);
    Through(own, s, steps + b + c, linked, d, s');
    steps := steps + b + c + d;
  }

  // ---- Unregistering ----

  /** The files that a list given to unregister names. */
  function Named(given: set<Text>): set<Text> {
    set raw | raw in given && ValidateLiquidationId(raw).Ok? :: ValidateLiquidationId(raw).value
  }

  lemma {:induction false} LoneUnlinks(s: State, p: nat) returns (steps: seq<Step>, s': State)
    requires p in s.procs && s.procs[p].Unregistering?
    ensures Leads(Own(p, UnregisterCall), s, steps, s')
    ensures s'.procs == s.procs[p := Unregistering(s.procs[p].u.(todo := {}))]
    ensures forall name :: name in s'.markers <==>
              name in s.markers && !(name.0 == KeyText(s.procs[p].u.target) && name.1 in s.procs[p].u.todo)
    ensures forall name :: name in s'.markers ==> s'.markers[name] == s.markers[name]
    ensures s'.bytes == s.bytes && s'.pending == s.pending && s'.dirs == s.dirs
    decreases s.procs[p].u.todo
  {
    var u := s.procs[p].u;
    if u.todo == {} {
      steps, s' := [], s;
    } else {
      var id :| id in u.todo;
      var next := Go(s, p, Unregistering(u.(todo := u.todo - {id})))
                  .(markers := s.markers - {(KeyText(u.target), id)},
                    history := s.history + [Removed(KeyText(u.target), id)]);
      assert UnregisterStep(s, UnlinkMarker(p, id), next);
      steps, s' := LoneUnlinks(next, p);
      steps := Before(p, UnregisterCall, s, UnlinkMarker(p, id), next, steps, s');
    }
  }

  lemma BeginsUnregistering(s: State, p: nat, t: Target, given: set<Text>) returns (s': State)
    requires p !in s.procs && t.Valid()
    ensures p in s'.procs && s' == Go(s, p, s'.procs[p]) && s'.procs[p].Unregistering?
    ensures s'.procs[p].u.target == t && s'.procs[p].u.todo == Named(given)
    ensures s'.procs[p].u.rejected <==> exists raw :: raw in given && ValidateLiquidationId(raw).Err?
    ensures Next(s, BeginUnregister(p, t, given), s')
  {
    s' := Go(s, p, Unregistering(BeginRemoval(t, given)));
    assert UnregisterStep(s, BeginUnregister(p, t, given), s');
  }

  lemma FinishesUnregistering(s: State, p: nat) returns (s': State)
    requires p in s.procs && s.procs[p].Unregistering? && s.procs[p].u.todo == {}
    ensures s' == Go(s, p, Unregistered(s.procs[p].u)) && Next(s, FinishUnregister(p), s')
  {
    s' := Go(s, p, Unregistered(s.procs[p].u));
    assert UnregisterStep(s, FinishUnregister(p), s');
  }

  /**
   * An undisturbed unregister call takes exactly the valid ones of its ids off its target, and it is rejected exactly
   * when one of them is not valid.
   */
  lemma LoneUnregisters(s: State, p: nat, t: Target, given: set<Text>) returns (steps: seq<Step>, s': State)
    requires p !in s.procs && t.Valid()
    ensures Leads(Own(p, UnregisterCall), s, steps, s')
    ensures p in s'.procs && s'.procs[p].Unregistered? && s'.procs == s.procs[p := s'.procs[p]]
    ensures s'.procs[p].removal.rejected <==> exists raw :: raw in given && ValidateLiquidationId(raw).Err?
    ensures forall name :: name in s'.markers <==>
              name in s.markers && !(name.0 == KeyText(t) && name.1 in Named(given))
    ensures forall name :: name in s'.markers ==> s'.markers[name] == s.markers[name]
    ensures s'.bytes == s.bytes && s'.pending == s.pending && s'.dirs == s.dirs
  {
    var begun := BeginsUnregistering(s, p, t, given);
    steps, s' := LoneTakes(begun, p);
    steps := Before(p, UnregisterCall, s, BeginUnregister(p, t, given), begun, steps, s');
  }

  lemma LoneTakes(s: State, p: nat) returns (steps: seq<Step>, s': State)
    requires p in s.procs && s.procs[p].Unregistering?
    ensures Leads(Own(p, UnregisterCall), s, steps, s')
    ensures p in s'.procs && s'.procs == s.procs[p := Unregistered(s.procs[p].u.(todo := {}))]
    ensures forall name :: name in s'.markers <==>
              name in s.markers && !(name.0 == KeyText(s.procs[p].u.target) && name.1 in s.procs[p].u.todo)
    ensures forall name :: name in s'.markers ==> s'.markers[name] == s.markers[name]
    ensures s'.bytes == s.bytes && s'.pending == s.pending && s'.dirs == s.dirs
  {
    var unlinked;
    steps, unlinked := LoneUnlinks(s, p);
    s' := FinishesUnregistering(unlinked, p);
    steps := OneMore(p, UnregisterCall, s, steps, unlinked, FinishUnregister(p), s');
  }

  // ---- Reading ----

  lemma GoOn(s: State, p: nat, proc: Proc, next: Proc)
    ensures Go(Go(s, p, proc), p, next) == Go(s, p, next)
  {
  }

  /** A read at this point of its scan, in a state that is otherwise s. */
  function At(s: State, p: nat, scan: Scan): State {
    Go(s, p, Reading(scan))
  }

  lemma SeesEntry(s: State, p: nat, scan: Scan, id: Text)
    requires scan.phase.Scanning? && id in Listed(s, scan.target)
    ensures Next(At(s, p, scan), SeeEntry(p, id), At(s, p, scan.(seen := scan.seen[id := |s.history|])))
  {
    var next := scan.(seen := scan.seen[id := |s.history|]);
    GoOn(s, p, Reading(scan), Reading(next));
    assert ReadStep(At(s, p, scan), SeeEntry(p, id), At(s, p, next));
  }

  lemma {:induction false} LoneSees(s: State, p: nat, scan: Scan, todo: set<Text>)
    returns (steps: seq<Step>, seen: map<Text, nat>)
    requires scan.phase.Scanning? && todo <= Listed(s, scan.target)
    ensures Leads(Own(p, ReadCall), At(s, p, scan), steps, At(s, p, scan.(seen := seen)))
    ensures seen.Keys == scan.seen.Keys + todo
    decreases todo
  {
    if todo == {} {
      steps, seen := [], scan.seen;
    } else {
      var id :| id in todo;
      var next := scan.(seen := scan.seen[id := |s.history|]);
      SeesEntry(s, p, scan, id);
      steps, seen := LoneSees(s, p, next, todo - {id});
      steps := Before(p, ReadCall, At(s, p, scan), SeeEntry(p, id), At(s, p, next), steps,
                      At(s, p, scan.(seen := seen)));
    }
  }

  /** The end of the scan, when everything listed has been seen. */
  lemma FinishesScan(s: State, p: nat, scan: Scan)
    requires HistoryAgrees(s) && scan.phase.Scanning? && scan.since == |s.history|
    requires scan.seen.Keys == Listed(s, scan.target)
    ensures Next(At(s, p, scan), FinishScan(p), At(s, p, scan.(phase := Checking(scan.seen.Keys, |s.history|))))
  {
    var h := s.history;
    assert h[..|h|] == h;
    forall id | (KeyText(scan.target), id) in Replay(h) ensures id in scan.seen {
      assert id in Listed(s, scan.target);
    }
    var next := scan.(phase := Checking(scan.seen.Keys, |h|));
    GoOn(s, p, Reading(scan), Reading(next));
    assert ReadStep(At(s, p, scan), FinishScan(p), At(s, p, next));
  }

  lemma ChecksEntry(s: State, p: nat, scan: Scan, id: Text)
    requires MarkersComplete(s) && scan.phase.Checking? && scan.target.Valid()
    requires id in scan.phase.unchecked && id in Listed(s, scan.target)
    ensures Next(At(s, p, scan), CheckEntry(p, id), At(s, p, Unchecked(scan, scan.phase.unchecked - {id})))
  {
    var next := Unchecked(scan, scan.phase.unchecked - {id});
    MarkerReadsBack(s, scan.target, id);
    GoOn(s, p, Reading(scan), Reading(next));
    assert ReadStep(At(s, p, scan), CheckEntry(p, id), At(s, p, next));
  }

  function Unchecked(scan: Scan, unchecked: set<Text>): Scan
    requires scan.phase.Checking?
  {
    scan.(phase := Checking(unchecked, scan.phase.until))
  }

  lemma {:induction false} LoneChecks(s: State, p: nat, scan: Scan) returns (steps: seq<Step>)
    requires scan.phase.Checking? && scan.target.Valid()
    requires MarkersComplete(s) && scan.phase.unchecked <= Listed(s, scan.target)
    ensures Leads(Own(p, ReadCall), At(s, p, scan), steps, At(s, p, Unchecked(scan, {})))
    decreases scan.phase.unchecked
  {
    var unchecked := scan.phase.unchecked;
    if unchecked == {} {
      steps := [];
    } else {
      var id :| id in unchecked;
      var next := Unchecked(scan, unchecked - {id});
      ChecksEntry(s, p, scan, id);
      steps := LoneChecks(s, p, next);
      steps := Before(p, ReadCall, At(s, p, scan), CheckEntry(p, id), At(s, p, next), steps,
                      At(s, p, Unchecked(scan, {})));
    }
  }

  lemma FinishesReading(s: State, p: nat, scan: Scan)
    requires scan.phase.Checking? && scan.phase.unchecked == {}
    ensures Next(At(s, p, scan), FinishRead(p), Go(s, p, Read(scan)))
  {
    GoOn(s, p, Reading(scan), Read(scan));
    assert ReadStep(At(s, p, scan), FinishRead(p), Go(s, p, Read(scan)));
  }

  /** The call returned the ids listed for its target, and changed nothing. */
  ghost predicate HasRead(s: State, s': State, p: nat, t: Target) {
    && p in s'.procs && s'.procs[p].Read? && s' == Go(s, p, s'.procs[p])
    && s'.procs[p].result.target == t && s'.procs[p].result.since == |s.history|
    && s'.procs[p].result.seen.Keys == Listed(s, t)
  }

  /** Reading begins; when there is no directory, it also ends. */
  lemma BeginsReading(s: State, p: nat, t: Target) returns (s': State)
    requires DirsMade(s) && p !in s.procs && t.Valid()
    ensures Next(s, BeginRead(p, t), s')
    ensures KeyText(t) in s.dirs ==> s' == At(s, p, Scan(t, Scanning, map[], |s.history|))
    ensures KeyText(t) !in s.dirs ==> HasRead(s, s', p, t)
  {
    s' := Go(s, p, if KeyText(t) in s.dirs then Reading(Scan(t, Scanning, map[], |s.history|))
                   else Read(Scan(t, Checking({}, |s.history|), map[], |s.history|)));
    assert ReadStep(s, BeginRead(p, t), s');
    assert KeyText(t) !in s.dirs ==> Listed(s, t) == {};
  }

  lemma LoneScans(s: State, p: nat, scan: Scan) returns (steps: seq<Step>, seen: map<Text, nat>)
    requires HistoryAgrees(s) && scan == Scan(scan.target, Scanning, map[], |s.history|)
    ensures seen.Keys == Listed(s, scan.target)
    ensures Leads(Own(p, ReadCall), At(s, p, scan), steps,
                  At(s, p, Scan(scan.target, Checking(seen.Keys, |s.history|), seen, |s.history|)))
  {
    steps, seen := LoneSees(s, p, scan, Listed(s, scan.target));
    var all := scan.(seen := seen);
    FinishesScan(s, p, all);
    steps := OneMore(p, ReadCall, At(s, p, scan), steps, At(s, p, all), FinishScan(p),
                     At(s, p, all.(phase := Checking(seen.Keys, |s.history|))));
  }

  lemma LoneFinishes(s: State, p: nat, scan: Scan) returns (steps: seq<Step>)
    requires MarkersComplete(s) && scan.target.Valid() && scan.phase.Checking?
    requires scan.phase.unchecked <= Listed(s, scan.target)
    ensures Leads(Own(p, ReadCall), At(s, p, scan), steps, Go(s, p, Read(Unchecked(scan, {}))))
  {
    steps := LoneChecks(s, p, scan);
    FinishesReading(s, p, Unchecked(scan, {}));
    steps := OneMore(p, ReadCall, At(s, p, scan), steps, At(s, p, Unchecked(scan, {})), FinishRead(p),
                     Go(s, p, Read(Unchecked(scan, {}))));
  }

  /** An undisturbed read lists exactly what is there. */
  lemma LoneReads(s: State, p: nat, t: Target) returns (begun: State, steps: seq<Step>, s': State)
    requires Inv(s) && p !in s.procs && t.Valid()
    ensures Next(s, BeginRead(p, t), begun) && Leads(Own(p, ReadCall), begun, steps, s')
    ensures HasRead(s, s', p, t)
  {
    begun := BeginsReading(s, p, t);
    if KeyText(t) !in s.dirs {
      s', steps := begun, [];
    } else {
      var seen, more;
      steps, seen := LoneScans(s, p, Scan(t, Scanning, map[], |s.history|));
      var scan := Scan(t, Checking(seen.Keys, |s.history|), seen, |s.history|);
      more := LoneFinishes(s, p, scan);
      s' := Go(s, p, Read(Unchecked(scan, {})));
      Through(Own(p, ReadCall), begun, steps, At(s, p, scan), more, s');
      steps := steps + more;
    }
  }

  // ---- One after the other ----

  /**
   * From any state of any run, registering an id, unregistering a list and reading, one after the other and
   * undisturbed, reads what was there before, with the id, and without the ids of the list.
   */
  lemma CallsInTurn(states: seq<State>, steps: seq<Step>, p: nat, q: nat, r: nat, t: Target, id: Text,
          given: set<Text>, temp: nat, inode: nat)
    returns (longer: seq<State>, more: seq<Step>)
    requires Run(states, steps) && t.Valid() && ValidId(id) && p != q && q != r && p != r
    requires var s := states[|steps|];
             p !in s.procs && q !in s.procs && r !in s.procs && temp !in s.pending && inode !in s.bytes
    ensures Run(longer, steps + more)
    ensures var s, s' := states[|steps|], longer[|steps + more|]; (
            && p in s'.procs && s'.procs[p].Registered? && q in s'.procs && s'.procs[q].Unregistered?
            && r in s'.procs && s'.procs[r].Read?
            && s'.procs[r].result.seen.Keys == Listed(s, t) + {id} - Named(given))
  {
    var s := states[|steps|];
    RunKeepsInv(states, steps, |steps|);
    var s1, s2, s3, a, b, c;
    a, s1 := LoneRegisters(s, p, t, id, temp, inode);
    Widen(Own(p, RegisterCall), NEXT, s, a, s1);
    LeadsKeepsInv(s, a, s1);
    b, s2 := LoneUnregisters(s1, q, t, given);
    Widen(Own(q, UnregisterCall), NEXT, s1, b, s2);
    LeadsKeepsInv(s1, b, s2);
    var begun;
    begun, c, s3 := LoneReads(s2, r, t);
    c := Before(r, ReadCall, s2, BeginRead(r, t), begun, c, s3);
    Widen(Own(r, ReadCall), NEXT, s2, c, s3);
    Through(NEXT, s, a, s1, b, s2);
    Through(NEXT, s, a + b, s2, c, s3);
    ListedAfter(s, s1, s2, t, id, given);
    more := a + b + c;
    longer := LeadsIsRun(states, steps, more, s3);
  }

  lemma ListedAfter(s: State, s1: State, s2: State, t: Target, id: Text, given: set<Text>)
    requires s1.markers.Keys == s.markers.Keys + {(KeyText(t), id)}
    requires forall name :: name in s2.markers <==>
               name in s1.markers && !(name.0 == KeyText(t) && name.1 in Named(given))
    ensures Listed(s2, t) == Listed(s, t) + {id} - Named(given)
  {
    forall x ensures x in Listed(s2, t) <==> x in Listed(s, t) + {id} - Named(given) {
      assert x in Listed(s2, t) <==> (KeyText(t), x) in s2.markers;
      assert x in Listed(s, t) <==> (KeyText(t), x) in s.markers;
    }
  }
}
