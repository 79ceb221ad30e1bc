/** The liquidation registry as interleaved steps over POSIX files; calls may crash between any two. */
module RegistryProtocol {
  import opened Text
  import opened Options
  import opened RegistryMarkers

  /** An entry added (or found present) and an entry unlinked (or found absent), by directory and file name. */
  datatype Event = Added(dir: Text, id: Text) | Removed(dir: Text, id: Text)

  datatype RegisterPhase =
    | Begun
    | DirectoryReady
    | Writing(temp: nat, inode: nat)
    | Written(temp: nat, inode: nat)
    | Linked(temp: nat)
    | Found(temp: nat)
    | Verified(temp: nat)
    | Failing(temp: nat, error: RegistryError)

  datatype ReadPhase = Scanning | Checking(unchecked: set<Text>, until: nat)

  /** Calls; `since` counts the events before the call began, `at` those before its link. */
  datatype Registration = Registration(target: Target, id: Text, phase: RegisterPhase, since: nat, at: nat)

  /**
   * The valid ids of the list are unlinked one by one, also when another id of the list has the whole call
   * rejected.
   */
  datatype Removal = Removal(target: Target, ids: set<Text>, todo: set<Text>, rejected: bool)

  /** `seen` tells how many events had happened when an entry was last listed. */
  datatype Scan = Scan(target: Target, phase: ReadPhase, seen: map<Text, nat>, since: nat)

  datatype Proc =
    | Registering(r: Registration)
    | Unregistering(u: Removal)
    | Reading(scan: Scan)
    | Registered(registration: Registration)
    | Unregistered(removal: Removal)
    | Read(result: Scan)
    | Threw(error: RegistryError, target: Target, file: Text, from: nat)

  datatype State = State(
    dirs: set<Text>,
    pending: map<nat, nat>,
    markers: map<(Text, Text), nat>,
    bytes: map<nat, Text>,
    procs: map<nat, Proc>,
    history: seq<Event>)

  datatype Step =
    | BeginRegister(p: nat, target: Target, id: Text)
    | MakeDirectory(p: nat)
    | CreateTemp(p: nat, temp: nat, inode: nat)
    | WriteMore(p: nat, partial: Text)
    | FinishWrite(p: nat)
    | Link(p: nat)
    | ReadBack(p: nat)
    | UnlinkTemp(p: nat)
    | BeginUnregister(p: nat, target: Target, given: set<Text>)
    | UnlinkMarker(p: nat, id: Text)
    | FinishUnregister(p: nat)
    | BeginRead(p: nat, target: Target)
    | SeeEntry(p: nat, id: Text)
    | FinishScan(p: nat)
    | CheckEntry(p: nat, id: Text)
    | FinishRead(p: nat)
    | Crash(p: nat)

  // ---- The abstract set ----

  function Replay(history: seq<Event>): set<(Text, Text)> {
    if history == [] then {} else
      var before, e := Replay(history[..|history| - 1]), history[|history| - 1];
      if e.Added? then before + {(e.dir, e.id)} else before - {(e.dir, e.id)}
  }

  predicate NeverRemoved(history: seq<Event>, from: nat, to: nat, dir: Text, id: Text)
    requires from <= to <= |history|
  {
    forall i :: from <= i < to ==> history[i] != Removed(dir, id)
  }

  /** What readdir owes: every entry present from the start of the scan to its end. */
  ghost predicate Covers(history: seq<Event>, from: nat, to: nat, dir: Text, seen: map<Text, nat>)
    requires from <= to <= |history|
  {
    forall id :: (dir, id) in Replay(history[..from]) && NeverRemoved(history, from, to, dir, id) ==> id in seen
  }

  // ---- Steps ----

  function Init(): State {
    State({}, map[], map[], map[], map[], [])
  }

  function Go(s: State, p: nat, proc: Proc): State {
    s.(procs := s.procs[p := proc])
  }

  /** The file named id in dir, read and parsed. */
  function ReadMarker(s: State, target: Target, id: Text): Result<Text, RegistryError> {
    var name := (KeyText(target), id);
    if name !in s.markers || s.markers[name] !in s.bytes then Err(MissingFile)
    else ParseMarker(s.bytes[s.markers[name]], target, id)
  }

  ghost predicate RegisterStep(s: State, l: Step, s': State) {
    match l
    case BeginRegister(p, target, id) =>
      && p !in s.procs && target.Valid() && ValidId(id)
      && s' == Go(s, p, Registering(Registration(target, id, Begun, |s.history|, 0)))
    case MakeDirectory(p) =>
      p in s.procs && s.procs[p].Registering? && s.procs[p].r.phase.Begun? &&
      var r := s.procs[p].r;
      s' == Go(s, p, Registering(r.(phase := DirectoryReady))).(dirs := s.dirs + {KeyText(r.target)})
    case CreateTemp(p, temp, inode) =>
      p in s.procs && s.procs[p].Registering? && s.procs[p].r.phase.DirectoryReady? &&
      temp !in s.pending && inode !in s.bytes &&
      s' == Go(s, p, Registering(s.procs[p].r.(phase := Writing(temp, inode))))
               .(pending := s.pending[temp := inode], bytes := s.bytes[inode := []])
    case WriteMore(p, partial) =>
      p in s.procs && s.procs[p].Registering? && s.procs[p].r.phase.Writing? &&
      partial <= RawMarker(s.procs[p].r.target, s.procs[p].r.id) &&
      s' == s.(bytes := s.bytes[s.procs[p].r.phase.inode := partial])
    case FinishWrite(p) =>
      p in s.procs && s.procs[p].Registering? && s.procs[p].r.phase.Writing? &&
      var r := s.procs[p].r;
      s' == Go(s, p, Registering(r.(phase := Written(r.phase.temp, r.phase.inode))))
               .(bytes := s.bytes[r.phase.inode := RawMarker(r.target, r.id)])
    case Link(p) =>
      p in s.procs && s.procs[p].Registering? && s.procs[p].r.phase.Written? &&
      var r, name := s.procs[p].r, (KeyText(s.procs[p].r.target), s.procs[p].r.id);
      var temp := r.phase.temp;
      s' == Go(s, p,
               Registering(r.(at := |s.history|, phase := if name in s.markers then Found(temp) else Linked(temp))))
               .(markers := if name in s.markers then s.markers else s.markers[name := r.phase.inode],
                 history := s.history + [Added(name.0, name.1)])
    case ReadBack(p) =>
      p in s.procs && s.procs[p].Registering? && s.procs[p].r.phase.Found? &&
      var r := s.procs[p].r;
      s' == Go(s, p, Registering(r.(phase := match ReadMarker(s, r.target, r.id)
                                             case Ok(_) => Verified(r.phase.temp)
                                             case Err(e) => Failing(r.phase.temp, e))))
    case UnlinkTemp(p) =>
      p in s.procs && s.procs[p].Registering? &&
      var r := s.procs[p].r;
      (r.phase.Linked? || r.phase.Verified? || r.phase.Failing?) &&
      s' == Go(s, p, if r.phase.Failing? then Threw(r.phase.error, r.target, r.id, r.at) else Registered(r))
               .(pending := s.pending - {r.phase.temp})
    case _ => false
  }

  /** Each id is validated by itself. */
  function BeginRemoval(target: Target, given: set<Text>): Removal {
    var valid := set raw | raw in given && ValidateLiquidationId(raw).Ok? :: ValidateLiquidationId(raw).value;
    Removal(target, valid, valid, exists raw :: raw in given && ValidateLiquidationId(raw).Err?)
  }

  ghost predicate UnregisterStep(s: State, l: Step, s': State) {
    match l
    case BeginUnregister(p, target, given) =>
      && p !in s.procs && target.Valid()
      && s' == Go(s, p, Unregistering(BeginRemoval(target, given)))
    case UnlinkMarker(p, id) =>
      p in s.procs && s.procs[p].Unregistering? && id in s.procs[p].u.todo &&
      var u := s.procs[p].u;
      s' == Go(s, p, Unregistering(u.(todo := u.todo - {id})))
               .(markers := s.markers - {(KeyText(u.target), id)},
                 history := s.history + [Removed(KeyText(u.target), id)])
    case FinishUnregister(p) =>
      && p in s.procs && s.procs[p].Unregistering? && s.procs[p].u.todo == {}
      && s' == Go(s, p, Unregistered(s.procs[p].u))
    case _ => false
  }

  ghost predicate ReadStep(s: State, l: Step, s': State) {
    match l
    case BeginRead(p, target) =>
      && p !in s.procs && target.Valid()
      && s' == Go(s, p, if KeyText(target) in s.dirs then Reading(Scan(target, Scanning, map[], |s.history|))
                        else Read(Scan(target, Checking({}, |s.history|), map[], |s.history|)))
    case SeeEntry(p, id) =>
      p in s.procs && s.procs[p].Reading? && s.procs[p].scan.phase.Scanning? &&
      var scan := s.procs[p].scan;
      (KeyText(scan.target), id) in s.markers &&
      s' == Go(s, p, Reading(scan.(seen := scan.seen[id := |s.history|])))
    case FinishScan(p) =>
      p in s.procs && s.procs[p].Reading? && s.procs[p].scan.phase.Scanning? &&
      var scan := s.procs[p].scan;
      scan.since <= |s.history| &&
      Covers(s.history, scan.since, |s.history|, KeyText(scan.target), scan.seen) &&
      s' == Go(s, p, Reading(scan.(phase := Checking(scan.seen.Keys, |s.history|))))
    case CheckEntry(p, id) =>
      p in s.procs && s.procs[p].Reading? && s.procs[p].scan.phase.Checking? &&
      var scan := s.procs[p].scan;
      id in scan.phase.unchecked &&
      s' == Go(s, p, if !ValidId(id) then Threw(UnexpectedEntry, scan.target, id, scan.since) else
                       match ReadMarker(s, scan.target, id)
                       case Ok(_) => Reading(scan.(phase := scan.phase.(unchecked := scan.phase.unchecked - {id})))
                       case Err(e) => Threw(e, scan.target, id, scan.since))
    case FinishRead(p) =>
      p in s.procs && s.procs[p].Reading? && s.procs[p].scan.phase.Checking? && s.procs[p].scan.phase.unchecked == {} &&
      s' == Go(s, p, Read(s.procs[p].scan))
    case _ => false
  }

  ghost predicate Next(s: State, l: Step, s': State) {
    || RegisterStep(s, l, s')
    || UnregisterStep(s, l, s')
    || ReadStep(s, l, s')
    || (l.Crash? && l.p in s.procs && s' == s.(procs := s.procs - {l.p}))
  }

  ghost predicate Run(states: seq<State>, steps: seq<Step>) {
    && |states| == |steps| + 1
    && states[0] == Init()
    && forall i :: 0 <= i < |steps| ==> Next(states[i], steps[i], states[i + 1])
  }

  // ---- Invariants ----

  /** Every file in a directory of a target is a complete marker for that target and its own name. */
  ghost predicate MarkersComplete(s: State) {
    forall t: Target, id: Text :: t.Valid() && (KeyText(t), id) in s.markers ==>
      && ValidId(id)
      && s.markers[(KeyText(t), id)] in s.bytes
      && s.bytes[s.markers[(KeyText(t), id)]] == RawMarker(t, id)
  }

  predicate OwnsInode(proc: Proc) {
    proc.Registering? && (proc.r.phase.Writing? || proc.r.phase.Written?)
  }

  /** A temporary file is written by one call only, and not under any marker's name. */
  ghost predicate InodesOwned(s: State) {
    && (forall p :: p in s.procs && OwnsInode(s.procs[p]) ==>
          && s.procs[p].r.phase.inode in s.bytes
          && (forall k :: k in s.markers ==> s.markers[k] != s.procs[p].r.phase.inode)
          && (s.procs[p].r.phase.Written? ==>
                s.bytes[s.procs[p].r.phase.inode] == RawMarker(s.procs[p].r.target, s.procs[p].r.id)))
    && (forall p, q :: p in s.procs && q in s.procs && p != q && OwnsInode(s.procs[p]) && OwnsInode(s.procs[q]) ==>
          s.procs[p].r.phase.inode != s.procs[q].r.phase.inode)
    && (forall k :: k in s.markers ==> s.markers[k] in s.bytes)
  }

  ghost predicate HistoryAgrees(s: State) {
    s.markers.Keys == Replay(s.history)
  }

  /** The call's own event lies between its start and now. */
  predicate AddedAt(history: seq<Event>, r: Registration) {
    r.since <= r.at < |history| && history[r.at] == Added(KeyText(r.target), r.id)
  }

  ghost predicate SeenInTime(history: seq<Event>, scan: Scan, until: nat) {
    until <= |history| && scan.since <= until &&
    forall id :: id in scan.seen ==>
      scan.since <= scan.seen[id] <= until && (KeyText(scan.target), id) in Replay(history[..scan.seen[id]])
  }

  ghost predicate ScanSound(history: seq<Event>, scan: Scan) {
    && scan.target.Valid()
    && (forall id :: id in scan.seen ==> ValidId(id))
    && match scan.phase
       case Scanning => SeenInTime(history, scan, |history|)
       case Checking(unchecked, until) =>
         && unchecked <= scan.seen.Keys
         && SeenInTime(history, scan, until)
         && Covers(history, scan.since, until, KeyText(scan.target), scan.seen)
  }

  predicate RemovedSince(history: seq<Event>, from: nat, target: Target, id: Text) {
    exists i :: from <= i < |history| && history[i] == Removed(KeyText(target), id)
  }

  predicate RegistrationSound(history: seq<Event>, r: Registration) {
    && r.target.Valid() && ValidId(r.id) && r.since <= |history|
    && (r.phase.Linked? || r.phase.Found? || r.phase.Verified? || r.phase.Failing? ==> AddedAt(history, r))
    && (r.phase.Failing? ==> r.phase.error == MissingFile && RemovedSince(history, r.at, r.target, r.id))
  }

  ghost predicate ProcSound(history: seq<Event>, proc: Proc) {
    match proc
    case Registering(r) => RegistrationSound(history, r)
    case Registered(r) => RegistrationSound(history, r) && AddedAt(history, r)
    case Unregistering(u) => u.target.Valid() && u.todo <= u.ids
    case Unregistered(u) => u.todo == {}
    case Reading(scan) => ScanSound(history, scan)
    case Read(scan) => ScanSound(history, scan) && scan.phase.Checking?
    case Threw(e, target, file, from) => e == MissingFile && RemovedSince(history, from, target, file)
  }

  ghost predicate ProcsSound(s: State) {
    forall p :: p in s.procs ==> ProcSound(s.history, s.procs[p])
  }

  /** Nothing is linked into a directory before it is made. */
  ghost predicate DirsMade(s: State) {
    && (forall p :: p in s.procs && s.procs[p].Registering? && !s.procs[p].r.phase.Begun? ==>
          KeyText(s.procs[p].r.target) in s.dirs)
    && (forall k :: k in s.markers ==> k.0 in s.dirs)
  }

  ghost predicate Inv(s: State) {
    MarkersComplete(s) && InodesOwned(s) && HistoryAgrees(s) && ProcsSound(s) && DirsMade(s)
  }

  // ---- The history ----

  lemma {:induction false} ReplayAppend(history: seq<Event>, e: Event)
    ensures Replay(history + [e])
         == if e.Added? then Replay(history) + {(e.dir, e.id)} else Replay(history) - {(e.dir, e.id)}
  {
    assert (history + [e])[..|history|] == history;
  }

  /** What was added and not removed since is there. */
  lemma {:induction false} AddedStays(history: seq<Event>, at: nat, dir: Text, id: Text)
    requires at < |history| && history[at] == Added(dir, id)
    requires NeverRemoved(history, at, |history|, dir, id)
    ensures (dir, id) in Replay(history)
  {
    if at == |history| - 1 {
    } else {
      AddedStays(history[..|history| - 1], at, dir, id);
    }
  }

  lemma {:induction false} PresentStays(history: seq<Event>, from: nat, dir: Text, id: Text)
    requires from <= |history| && (dir, id) in Replay(history[..from])
    requires NeverRemoved(history, from, |history|, dir, id)
    ensures (dir, id) in Replay(history)
  {
    if from < |history| {
      assert history[..|history| - 1][..from] == history[..from];
      PresentStays(history[..|history| - 1], from, dir, id);
    } else {
      assert history[..from] == history;
    }
  }

  /** What holds of a call keeps holding as events are added. */
  lemma SoundGrows(history: seq<Event>, e: Event, proc: Proc)
    requires ProcSound(history, proc)
    ensures ProcSound(history + [e], proc)
  {
    forall from: nat, t, id | RemovedSince(history, from, t, id) ensures RemovedSince(history + [e], from, t, id) {
      var i :| from <= i < |history| && history[i] == Removed(KeyText(t), id);
      assert (history + [e])[i] == history[i];
    }
    if proc.Reading? {
      ScanGrows(history, e, proc.scan);
    } else if proc.Read? {
      ScanGrows(history, e, proc.result);
    }
  }

  lemma ScanGrows(history: seq<Event>, e: Event, scan: Scan)
    requires ScanSound(history, scan)
    ensures ScanSound(history + [e], scan)
  {
    var h := history + [e];
    forall n: nat | n <= |history| ensures h[..n] == history[..n] {}
    if scan.phase.Checking? {
      assert Covers(h, scan.since, scan.phase.until, KeyText(scan.target), scan.seen) by {
        forall id | (KeyText(scan.target), id) in Replay(h[..scan.since])
                 && NeverRemoved(h, scan.since, scan.phase.until, KeyText(scan.target), id)
          ensures id in scan.seen
        {
          assert forall i :: scan.since <= i < scan.phase.until ==> h[i] == history[i];
          assert NeverRemoved(history, scan.since, scan.phase.until, KeyText(scan.target), id);
        }
      }
    }
  }
}
