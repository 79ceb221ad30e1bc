/** What every interleaving of registry calls keeps, and what a completed call may rely on. */
module RegistrySafety {
  import opened Text
  import opened Options
  import opened RegistryMarkers
  import opened RegistryProtocol

  /** The markers, and what they hold, are as before. */
  ghost predicate MarkersLeft(s: State, s': State) {
    && s'.markers == s.markers
    && forall k :: k in s.markers ==>
         s.markers[k] in s.bytes && s.markers[k] in s'.bytes && s'.bytes[s.markers[k]] == s.bytes[s.markers[k]]
  }

  lemma WritesLeaveMarkers(s: State, l: Step, s': State)
    requires InodesOwned(s) && RegisterStep(s, l, s') && (l.CreateTemp? || l.WriteMore? || l.FinishWrite?)
    ensures MarkersLeft(s, s')
  {
  }

  lemma RegisterLeavesMarkers(s: State, l: Step, s': State)
    requires InodesOwned(s) && RegisterStep(s, l, s') && !l.Link?
    ensures MarkersLeft(s, s')
  {
    if l.CreateTemp? || l.WriteMore? || l.FinishWrite? {
      WritesLeaveMarkers(s, l, s');
    } else {
      assert s'.bytes == s.bytes;
    }
  }

  lemma CallsLeaveMarkers(s: State, l: Step, s': State)
    requires InodesOwned(s) && (UnregisterStep(s, l, s') || ReadStep(s, l, s')) && !l.UnlinkMarker?
    ensures MarkersLeft(s, s')
  {
    assert s'.markers == s.markers && s'.bytes == s.bytes;
  }

  /** No other step, and no crash, changes a marker or what it holds. */
  lemma OtherStepsLeaveMarkers(s: State, l: Step, s': State)
    requires InodesOwned(s) && Next(s, l, s') && !l.Link? && !l.UnlinkMarker?
    ensures s'.markers == s.markers && MarkersLeft(s, s')
    ensures forall k :: k in s.markers ==>
              s.markers[k] in s.bytes && s.markers[k] in s'.bytes && s'.bytes[s.markers[k]] == s.bytes[s.markers[k]]
  {
    if RegisterStep(s, l, s') {
      RegisterLeavesMarkers(s, l, s');
    } else if UnregisterStep(s, l, s') || ReadStep(s, l, s') {
      CallsLeaveMarkers(s, l, s');
    }
  }

  lemma LinkKeepsMarkers(s: State, l: Step, s': State)
    requires MarkersComplete(s) && InodesOwned(s) && ProcsSound(s) && l.Link? && RegisterStep(s, l, s')
    ensures MarkersComplete(s')
  {
    var r := s.procs[l.p].r;
    forall t: Target, id: Text | t.Valid() && (KeyText(t), id) in s'.markers
      ensures ValidId(id) && s'.markers[(KeyText(t), id)] in s'.bytes
      ensures s'.bytes[s'.markers[(KeyText(t), id)]] == RawMarker(t, id)
    {
      if (KeyText(t), id) !in s.markers {
        KeyTextInjective(t, r.target);
      }
    }
  }

  lemma RegisterKeepsMarkers(s: State, l: Step, s': State)
    requires MarkersComplete(s) && InodesOwned(s) && ProcsSound(s) && RegisterStep(s, l, s')
    ensures MarkersComplete(s')
  {
    if l.Link? {
      LinkKeepsMarkers(s, l, s');
    } else {
      RegisterLeavesMarkers(s, l, s');
    }
  }

  lemma CreateKeepsInodes(s: State, l: Step, s': State)
    requires InodesOwned(s) && l.CreateTemp? && RegisterStep(s, l, s')
    ensures InodesOwned(s')
  {
  }

  lemma WriteKeepsInodes(s: State, l: Step, s': State)
    requires InodesOwned(s) && (l.WriteMore? || l.FinishWrite?) && RegisterStep(s, l, s')
    ensures InodesOwned(s')
  {
  }

  lemma LinkKeepsInodes(s: State, l: Step, s': State)
    requires InodesOwned(s) && l.Link? && RegisterStep(s, l, s')
    ensures InodesOwned(s')
  {
  }

  lemma BeginKeepsInodes(s: State, l: Step, s': State)
    requires InodesOwned(s) && (l.BeginRegister? || l.MakeDirectory?) && RegisterStep(s, l, s')
    ensures InodesOwned(s')
  {
  }

  lemma EndKeepsInodes(s: State, l: Step, s': State)
    requires InodesOwned(s) && (l.ReadBack? || l.UnlinkTemp?) && RegisterStep(s, l, s')
    ensures InodesOwned(s')
  {
  }

  lemma RegisterKeepsInodes(s: State, l: Step, s': State)
    requires InodesOwned(s) && RegisterStep(s, l, s')
    ensures InodesOwned(s')
  {
    if l.CreateTemp? {
      CreateKeepsInodes(s, l, s');
    } else if l.WriteMore? || l.FinishWrite? {
      WriteKeepsInodes(s, l, s');
    } else if l.Link? {
      LinkKeepsInodes(s, l, s');
    } else if l.BeginRegister? || l.MakeDirectory? {
      BeginKeepsInodes(s, l, s');
    } else {
      EndKeepsInodes(s, l, s');
    }
  }

  /** Reading back a marker that is there accepts it. */
  lemma PresentMarkerReads(s: State, t: Target, id: Text)
    requires MarkersComplete(s) && t.Valid()
    ensures ReadMarker(s, t, id) == if (KeyText(t), id) in s.markers then Ok(id) else Err(MissingFile)
  {
    MarkerAccepted(t, id, t, id);
  }

  lemma LinkKeepsProcs(s: State, l: Step, s': State)
    requires ProcsSound(s) && l.Link? && RegisterStep(s, l, s')
    ensures ProcsSound(s')
  {
    var r := s.procs[l.p].r;
    forall p | p in s.procs && p != l.p ensures ProcSound(s'.history, s'.procs[p]) {
      SoundGrows(s.history, Added(KeyText(r.target), r.id), s.procs[p]);
    }
  }

  lemma ReadBackKeepsProcs(s: State, l: Step, s': State)
    requires MarkersComplete(s) && HistoryAgrees(s) && ProcsSound(s) && l.ReadBack? && RegisterStep(s, l, s')
    ensures ProcsSound(s')
  {
    var r := s.procs[l.p].r;
    PresentMarkerReads(s, r.target, r.id);
    if !RemovedSince(s.history, r.at, r.target, r.id) {
      AddedStays(s.history, r.at, KeyText(r.target), r.id);
    }
  }

  lemma RegisterKeepsProcs(s: State, l: Step, s': State)
    requires MarkersComplete(s) && HistoryAgrees(s) && ProcsSound(s) && RegisterStep(s, l, s')
    ensures ProcsSound(s')
  {
    if l.ReadBack? {
      ReadBackKeepsProcs(s, l, s');
    } else if l.Link? {
      LinkKeepsProcs(s, l, s');
    }
  }

  lemma RegisterKeepsHistory(s: State, l: Step, s': State)
    requires HistoryAgrees(s) && DirsMade(s) && RegisterStep(s, l, s')
    ensures HistoryAgrees(s') && DirsMade(s')
  {
    if l.Link? {
      ReplayAppend(s.history, Added(KeyText(s.procs[l.p].r.target), s.procs[l.p].r.id));
    }
  }

  lemma UnregisterKeepsProcs(s: State, l: Step, s': State)
    requires ProcsSound(s) && UnregisterStep(s, l, s')
    ensures ProcsSound(s')
  {
    if l.UnlinkMarker? {
      forall p | p in s.procs && p != l.p ensures ProcSound(s'.history, s'.procs[p]) {
        SoundGrows(s.history, Removed(KeyText(s.procs[l.p].u.target), l.id), s.procs[p]);
      }
    }
  }

  lemma UnregisterKeepsMarkers(s: State, l: Step, s': State)
    requires MarkersComplete(s) && UnregisterStep(s, l, s')
    ensures MarkersComplete(s')
  {
    assert s'.bytes == s.bytes && forall k :: k in s'.markers ==> k in s.markers && s'.markers[k] == s.markers[k];
  }

  lemma UnregisterKeepsInodes(s: State, l: Step, s': State)
    requires InodesOwned(s) && UnregisterStep(s, l, s')
    ensures InodesOwned(s')
  {
  }

  lemma BeginReadSound(s: State, l: Step, s': State)
    requires HistoryAgrees(s) && ProcsSound(s) && DirsMade(s) && l.BeginRead? && ReadStep(s, l, s')
    ensures ProcsSound(s')
  {
    assert s.history[..|s.history|] == s.history;
  }

  lemma ScanKeepsProcs(s: State, l: Step, s': State)
    requires HistoryAgrees(s) && ProcsSound(s) && (l.SeeEntry? || l.FinishScan?) && ReadStep(s, l, s')
    requires l.SeeEntry? ==> MarkersComplete(s)
    ensures ProcsSound(s')
  {
    assert s.history[..|s.history|] == s.history;
  }

  /** A file that was seen and is gone was removed meanwhile. */
  lemma GoneWasRemoved(s: State, scan: Scan, id: Text)
    requires HistoryAgrees(s) && ScanSound(s.history, scan) && scan.phase.Checking? && id in scan.phase.unchecked
    requires (KeyText(scan.target), id) !in s.markers
    ensures RemovedSince(s.history, scan.since, scan.target, id)
  {
    if !RemovedSince(s.history, scan.since, scan.target, id) {
      PresentStays(s.history, scan.seen[id], KeyText(scan.target), id);
    }
  }

  lemma CheckedSound(s: State, l: Step, s': State)
    requires MarkersComplete(s) && HistoryAgrees(s) && l.CheckEntry? && ReadStep(s, l, s')
    requires ProcSound(s.history, s.procs[l.p])
    ensures ProcSound(s.history, s'.procs[l.p])
  {
    var scan := s.procs[l.p].scan;
    PresentMarkerReads(s, scan.target, l.id);
    if (KeyText(scan.target), l.id) !in s.markers {
      GoneWasRemoved(s, scan, l.id);
    }
  }

  lemma CheckKeepsProcs(s: State, l: Step, s': State)
    requires MarkersComplete(s) && HistoryAgrees(s) && ProcsSound(s) && l.CheckEntry? && ReadStep(s, l, s')
    ensures ProcsSound(s')
  {
    CheckedSound(s, l, s');
  }

  lemma FinishKeepsProcs(s: State, l: Step, s': State)
    requires ProcsSound(s) && l.FinishRead? && ReadStep(s, l, s')
    ensures ProcsSound(s')
  {
  }

  lemma ReadKeepsProcs(s: State, l: Step, s': State)
    requires MarkersComplete(s) && HistoryAgrees(s) && ProcsSound(s) && DirsMade(s) && ReadStep(s, l, s')
    ensures ProcsSound(s')
  {
    if l.BeginRead? {
      BeginReadSound(s, l, s');
    } else if l.SeeEntry? || l.FinishScan? {
      ScanKeepsProcs(s, l, s');
    } else if l.CheckEntry? {
      CheckKeepsProcs(s, l, s');
    } else {
      FinishKeepsProcs(s, l, s');
    }
  }

  lemma CrashKeepsFiles(s: State, l: Step, s': State)
    requires InodesOwned(s) && ProcsSound(s) && DirsMade(s) && l.Crash? && Next(s, l, s')
    ensures InodesOwned(s') && ProcsSound(s') && DirsMade(s')
    ensures s'.markers == s.markers && s'.bytes == s.bytes && s'.history == s.history
  {
  }

  lemma ReadKeepsFiles(s: State, l: Step, s': State)
    requires InodesOwned(s) && DirsMade(s) && ReadStep(s, l, s')
    ensures InodesOwned(s') && DirsMade(s')
    ensures s'.markers == s.markers && s'.bytes == s.bytes && s'.history == s.history
  {
    SameRegistrationsKeep(s, s');
  }

  /** What files promise depends on the files and on the registrations under way only. */
  lemma SameRegistrationsKeep(s: State, s': State)
    requires InodesOwned(s) && DirsMade(s)
    requires s'.markers == s.markers && s'.bytes == s.bytes && s'.dirs == s.dirs
    requires forall p :: p in s'.procs && s'.procs[p].Registering? ==> p in s.procs && s'.procs[p] == s.procs[p]
    ensures InodesOwned(s') && DirsMade(s')
  {
  }

  lemma RegisterKeepsInv(s: State, l: Step, s': State)
    requires Inv(s) && RegisterStep(s, l, s')
    ensures Inv(s')
  {
    RegisterKeepsMarkers(s, l, s');
    RegisterKeepsInodes(s, l, s');
    RegisterKeepsProcs(s, l, s');
    RegisterKeepsHistory(s, l, s');
  }

  lemma UnregisterKeepsInv(s: State, l: Step, s': State)
    requires Inv(s) && UnregisterStep(s, l, s')
    ensures Inv(s')
  {
    UnregisterKeepsMarkers(s, l, s');
    UnregisterKeepsInodes(s, l, s');
    UnregisterKeepsProcs(s, l, s');
  }

  lemma ReadKeepsInv(s: State, l: Step, s': State)
    requires Inv(s) && ReadStep(s, l, s')
    ensures Inv(s')
  {
    ReadKeepsFiles(s, l, s');
    ReadKeepsProcs(s, l, s');
  }

  lemma CrashKeepsInv(s: State, l: Step, s': State)
    requires Inv(s) && l.Crash? && Next(s, l, s')
    ensures Inv(s')
  {
    CrashKeepsFiles(s, l, s');
  }

  lemma StepKeepsInv(s: State, l: Step, s': State)
    requires Inv(s) && Next(s, l, s')
    ensures Inv(s')
  {
    if RegisterStep(s, l, s') {
      RegisterKeepsInv(s, l, s');
    } else if UnregisterStep(s, l, s') {
      UnregisterKeepsInv(s, l, s');
    } else if ReadStep(s, l, s') {
      ReadKeepsInv(s, l, s');
    } else {
      CrashKeepsInv(s, l, s');
    }
  }

  /** Every state of every run, whatever crashed on the way. */
  lemma {:induction false} RunKeepsInv(states: seq<State>, steps: seq<Step>, i: nat)
    requires Run(states, steps) && i < |states|
    ensures Inv(states[i])
  {
    if i == 0 {
    } else {
      RunKeepsInv(states, steps, i - 1);
      StepKeepsInv(states[i - 1], steps[i - 1], states[i]);
    }
  }

  // ---- Promises ----

  /**
   * The malformed, mismatch and unexpected-entry errors never come up: a call fails only
   * over a file that was unregistered while it ran.
   */
  lemma OnlyMissingFiles(states: seq<State>, steps: seq<Step>, i: nat, p: nat)
    requires Run(states, steps) && i < |states|
    requires p in states[i].procs && states[i].procs[p].Threw?
    ensures states[i].procs[p].error == MissingFile
    ensures var e := states[i].procs[p]; RemovedSince(states[i].history, e.from, e.target, e.file)
  {
    RunKeepsInv(states, steps, i);
  }

  /** A link adds the caller's own id, or finds it there, and leaves the other markers alone. */
  lemma LinkAddsOwnId(s: State, l: Step, s': State)
    requires l.Link? && RegisterStep(s, l, s')
    ensures s'.markers.Keys == s.markers.Keys + {(KeyText(s.procs[l.p].r.target), s.procs[l.p].r.id)}
    ensures forall k :: k in s.markers ==> s'.markers[k] == s.markers[k]
    ensures s'.bytes == s.bytes
  {
  }

  /** An unlink removes one of the ids the caller was given, from its own target. */
  lemma UnlinkRemovesOwnId(s: State, l: Step, s': State)
    requires Inv(s) && l.UnlinkMarker? && UnregisterStep(s, l, s')
    ensures l.id in s.procs[l.p].u.ids
    ensures s'.markers.Keys == s.markers.Keys - {(KeyText(s.procs[l.p].u.target), l.id)}
    ensures forall t: Target, id: Text ::
              t.Valid() && (KeyText(t), id) in s.markers && (t, id) != (s.procs[l.p].u.target, l.id)
              ==> (KeyText(t), id) in s'.markers
  {
    forall t: Target | t.Valid() && KeyText(t) == KeyText(s.procs[l.p].u.target)
      ensures t == s.procs[l.p].u.target
    {
      KeyTextInjective(t, s.procs[l.p].u.target);
    }
  }

  /** A registration that returned normally is there until somebody unregisters that id of that target. */
  lemma RegistrationNotLost(states: seq<State>, steps: seq<Step>, i: nat, p: nat)
    requires Run(states, steps) && i < |states|
    requires p in states[i].procs && states[i].procs[p].Registered?
    ensures var s, r := states[i], states[i].procs[p].registration; (
            && AddedAt(s.history, r)
            && (NeverRemoved(s.history, r.at, |s.history|, KeyText(r.target), r.id) ==>
                  (KeyText(r.target), r.id) in s.markers
                  && s.markers[(KeyText(r.target), r.id)] in s.bytes
                  && s.bytes[s.markers[(KeyText(r.target), r.id)]] == RawMarker(r.target, r.id)))
  {
    RunKeepsInv(states, steps, i);
    var s, r := states[i], states[i].procs[p].registration;
    if NeverRemoved(s.history, r.at, |s.history|, KeyText(r.target), r.id) {
      AddedStays(s.history, r.at, KeyText(r.target), r.id);
    }
  }

  lemma ListedIfRegistered(h: seq<Event>, scan: Scan, at: nat, id: Text)
    requires ScanSound(h, scan) && scan.phase.Checking?
    requires at < scan.since && h[at] == Added(KeyText(scan.target), id)
    requires NeverRemoved(h, at, scan.phase.until, KeyText(scan.target), id)
    ensures id in scan.seen
  {
    var before := h[..scan.since];
    assert NeverRemoved(before, at, |before|, KeyText(scan.target), id);
    AddedStays(before, at, KeyText(scan.target), id);
  }

  /**
   * A read that returned lists every id registered before it started and not unregistered before
   * its scan ended, and lists nothing that was not registered at some moment of the scan.
   */
  lemma ReadSeesRegistered(states: seq<State>, steps: seq<Step>, i: nat, p: nat)
    requires Run(states, steps) && i < |states|
    requires p in states[i].procs && states[i].procs[p].Read?
    ensures var h, scan := states[i].history, states[i].procs[p].result; (
            && scan.phase.Checking? && scan.since <= scan.phase.until <= |h|
            && (forall at: nat, id: Text ::
                  (at < scan.since && h[at] == Added(KeyText(scan.target), id)
                   && NeverRemoved(h, at, scan.phase.until, KeyText(scan.target), id)) ==> id in scan.seen)
            && (forall id :: id in scan.seen ==>
                  scan.since <= scan.seen[id] <= scan.phase.until
                  && (KeyText(scan.target), id) in Replay(h[..scan.seen[id]])))
  {
    RunKeepsInv(states, steps, i);
    var h, scan := states[i].history, states[i].procs[p].result;
    assert ScanSound(h, scan);
    forall at: nat, id: Text | at < scan.since && h[at] == Added(KeyText(scan.target), id)
                            && NeverRemoved(h, at, scan.phase.until, KeyText(scan.target), id)
      ensures id in scan.seen
    {
      ListedIfRegistered(h, scan, at, id);
    }
  }
}
