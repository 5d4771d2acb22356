/**
 The map tile cache under concurrent callers.

 Each `getTile` call first looks in the cache; on a miss it joins the one fetch in flight for its
 key or starts it. The fetch looks again, downloads, writes a temporary file, renames it into
 place and reads its time stamp. `Step` performs one file-system operation of one call, so `Run`
 over an arbitrary sequence of events is an arbitrary interleaving of any number of calls, with
 any operation failing at any point. `TileStore` holds the uninterrupted code.
 */
module TileCache {
  import opened Options
  import opened TilePaths

  type Data = seq<bv8>

  datatype File = File(data: Data, modifiedAt: int)

  /** A served tile; its entity tag is a function of the bytes. */
  type Tile = File

  type Files = map<string, File>

  /** `Cancelled` names the call whose cancellation ended the download. */
  datatype Failure = StatFailed | ReadFailed | FetchFailed | WriteFailed | RenameFailed | Cancelled(cause: nat)

  datatype Result = Served(tile: Tile) | Failed(failure: Failure)

  // ---------------------------------------------------------------- callers and fetches

  datatype CallPhase = Looking | Reading(modifiedAt: int) | Missed | Waiting | Done(result: Result)

  datatype Call = Call(key: Key, phase: CallPhase)

  datatype FetchPhase =
    | Rechecking
    | Rereading(modifiedAt: int)
    | Fetching
    | Opening(data: Data)
    | Writing(data: Data)
    | Renaming(data: Data)
    | Removing
    | Stamping(data: Data)

  /** `leader` is the call that started the fetch, and under whose context it downloads. */
  datatype Fetch = Fetch(key: Key, phase: FetchPhase, leader: nat)

  /** `fetches` is the single-flight group; `installs` records the renames that put a cache file in place;
      `cancelled` holds the calls whose client has gone away. */
  datatype State = State(
    files: Files,
    calls: map<nat, Call>,
    fetches: map<string, Fetch>,
    installs: seq<string>,
    cancelled: set<nat>)

  datatype Event =
    | Arrive(call: nat, key: Key)
    | Look(call: nat, fails: bool)
    | Read(call: nat, fails: bool)
    | Join(call: nat)
    | Cancel(call: nat)
    | Recheck(flight: string, fails: bool)
    | Reread(flight: string, fails: bool)
    | Download(flight: string, body: Option<Data>)
    | Abort(flight: string)
    | OpenTemp(flight: string, now: int, fails: bool)
    | WriteTemp(flight: string, now: int, written: Option<Data>)
    | Rename(flight: string, fails: bool)
    | RemoveTemp(flight: string)
    | Stamp(flight: string, fails: bool)

  predicate OfCall(e: Event) {
    e.Arrive? || e.Look? || e.Read? || e.Join? || e.Cancel?
  }

  function WithPhase(s: State, call: nat, phase: CallPhase): State
    requires call in s.calls
  {
    s.(calls := s.calls[call := s.calls[call].(phase := phase)])
  }

  function WithFetch(s: State, flight: string, phase: FetchPhase): State
    requires flight in s.fetches
  {
    s.(fetches := s.fetches[flight := s.fetches[flight].(phase := phase)])
  }

  /** The end of a fetch: every caller waiting on its key receives the result. */
  function Finish(s: State, flight: string, result: Result): State {
    s.(calls := map c | c in s.calls ::
         if s.calls[c].phase == Waiting && TileKeyString(s.calls[c].key) == flight
         then s.calls[c].(phase := Done(result)) else s.calls[c],
       fetches := s.fetches - {flight})
  }

  function Installed(s: State, path: string, temp: string): State
    requires temp in s.files
  {
    s.(files := s.files[path := s.files[temp]] - {temp}, installs := s.installs + [path])
  }

  predicate CallIs(s: State, call: nat, phase: CallPhase) {
    call in s.calls && s.calls[call].phase == phase
  }

  predicate FetchIs(s: State, flight: string, phase: FetchPhase) {
    flight in s.fetches && s.fetches[flight].phase == phase
  }

  function CallStep(dir: string, s: State, e: Event): State
    requires OfCall(e)
  {
    match e
    case Arrive(c, key) =>
      if c in s.calls then s else s.(calls := s.calls[c := Call(key, Looking)])
    case Look(c, fails) =>
      if !CallIs(s, c, Looking) then s
      else if fails then WithPhase(s, c, Done(Failed(StatFailed)))
      else
        var path := CachePath(dir, s.calls[c].key);
        WithPhase(s, c, if path in s.files then Reading(s.files[path].modifiedAt) else Missed)
    case Read(c, fails) =>
      if c !in s.calls || !s.calls[c].phase.Reading? then s
      else
        var path := CachePath(dir, s.calls[c].key);
        if fails || path !in s.files then WithPhase(s, c, Done(Failed(ReadFailed)))
        else WithPhase(s, c, Done(Served(File(s.files[path].data, s.calls[c].phase.modifiedAt))))
    case Join(c) =>
      if !CallIs(s, c, Missed) then s
      else
        var flight := TileKeyString(s.calls[c].key);
        var s' := WithPhase(s, c, Waiting);
        if flight in s.fetches then s' else s'.(fetches := s.fetches[flight := Fetch(s.calls[c].key, Rechecking, c)])
    case Cancel(c) => if c in s.calls then s.(cancelled := s.cancelled + {c}) else s
  }

  function FetchStep(dir: string, s: State, e: Event): State
    requires !OfCall(e)
  {
    if e.flight !in s.fetches then s
    else
      var f := e.flight;
      var key, phase := s.fetches[f].key, s.fetches[f].phase;
      var path, temp := CachePath(dir, key), TempPath(dir, key);
      match e
      case Recheck(_, fails) =>
        if phase != Rechecking then s
        else if fails then Finish(s, f, Failed(StatFailed))
        else WithFetch(s, f, if path in s.files then Rereading(s.files[path].modifiedAt) else Fetching)
      case Reread(_, fails) =>
        if !phase.Rereading? then s
        else if fails || path !in s.files then Finish(s, f, Failed(ReadFailed))
        else Finish(s, f, Served(File(s.files[path].data, phase.modifiedAt)))
      case Download(_, body) =>
        if phase != Fetching then s
        else if body.None? then Finish(s, f, Failed(FetchFailed))
        else WithFetch(s, f, Opening(body.value))
      case Abort(_) =>
        if phase != Fetching || s.fetches[f].leader !in s.cancelled then s
        else Finish(s, f, Failed(Cancelled(s.fetches[f].leader)))
      case OpenTemp(_, now, fails) =>
        if !phase.Opening? then s
        else if fails then Finish(s, f, Failed(WriteFailed))
        else WithFetch(s.(files := s.files[temp := File([], now)]), f, Writing(phase.data))
      case WriteTemp(_, now, written) =>
        if !phase.Writing? then s
        else if written.Some? then
          Finish(s.(files := s.files[temp := File(written.value, now)]), f, Failed(WriteFailed))
        else WithFetch(s.(files := s.files[temp := File(phase.data, now)]), f, Renaming(phase.data))
      case Rename(_, fails) =>
        if !phase.Renaming? then s
        else if fails || temp !in s.files then WithFetch(s, f, Removing)
        else
          WithFetch(Installed(s, path, temp), f, Stamping(phase.data))
      case RemoveTemp(_) =>
        if phase != Removing then s
        else Finish(s.(files := s.files - {temp}), f, Failed(RenameFailed))
      case Stamp(_, fails) =>
        if !phase.Stamping? then s
        else if fails || path !in s.files then Finish(s, f, Failed(StatFailed))
        else Finish(s, f, Served(File(phase.data, s.files[path].modifiedAt)))
  }

  function Step(dir: string, s: State, e: Event): State {
    if OfCall(e) then CallStep(dir, s, e) else FetchStep(dir, s, e)
  }

  function Run(dir: string, s: State, events: seq<Event>): State
    decreases |events|
  {
    if events == [] then s else Run(dir, Step(dir, s, events[0]), events[1..])
  }

  /** A server start: whatever files an earlier process left, no calls. */
  function Started(files: Files): State {
    State(files, map[], map[], [], {})
  }

  // ---------------------------------------------------------------- the invariant

  ghost predicate CallOk(dir: string, s: State, c: Call) {
    var path := CachePath(dir, c.key);
    match c.phase
    case Looking => true
    case Missed => true
    case Reading(modifiedAt) => path in s.files && s.files[path].modifiedAt == modifiedAt
    case Waiting => TileKeyString(c.key) in s.fetches
    case Done(result) => result.Served? ==> path in s.files && s.files[path] == result.tile
  }

  ghost predicate FetchOk(dir: string, files: Files, flight: string, f: Fetch) {
    var path, temp := CachePath(dir, f.key), TempPath(dir, f.key);
    && TileKeyString(f.key) == flight
    && match f.phase
       case Rechecking => true
       case Rereading(modifiedAt) => path in files && files[path].modifiedAt == modifiedAt
       case Renaming(data) => path !in files && temp in files && files[temp].data == data
       case Stamping(data) => path in files && files[path].data == data
       case Fetching => path !in files
       case Opening(_) => path !in files
       case Writing(_) => path !in files
       case Removing => path !in files
  }

  /** The renames so far put distinct tiles in place, and each is still there. */
  ghost predicate InstallsOk(dir: string, s: State) {
    && (forall i, j :: 0 <= i < j < |s.installs| ==> s.installs[i] != s.installs[j])
    && (forall path :: path in s.installs ==> path in s.files && IsCachePath(dir, path))
  }

  ghost predicate IsCachePath(dir: string, path: string) {
    exists key :: path == CachePath(dir, key)
  }

  ghost predicate CallsOk(dir: string, s: State) {
    forall c :: c in s.calls ==> CallOk(dir, s, s.calls[c])
  }

  /** Every fetch but the one under `f` is as it should be. */
  ghost predicate FetchesOkBut(dir: string, s: State, f: string) {
    forall g :: g in s.fetches && g != f ==> FetchOk(dir, s.files, g, s.fetches[g])
  }

  ghost predicate InvBut(dir: string, s: State, f: string) {
    CallsOk(dir, s) && FetchesOkBut(dir, s, f) && InstallsOk(dir, s)
  }

  ghost predicate Inv(dir: string, s: State) {
    && CallsOk(dir, s)
    && (forall g :: g in s.fetches ==> FetchOk(dir, s.files, g, s.fetches[g]))
    && InstallsOk(dir, s)
  }

  // ---------------------------------------------------------------- steps keep it

  lemma AdvanceKeepsInv(dir: string, s: State, f: string, phase: FetchPhase)
    requires InvBut(dir, s, f) && f in s.fetches
    requires FetchOk(dir, s.files, f, s.fetches[f].(phase := phase))
    ensures Inv(dir, WithFetch(s, f, phase))
  {
    hide FetchOk, InstallsOk, CachePath, TileKeyString;
    var s' := WithFetch(s, f, phase);
    forall c | c in s'.calls
      ensures CallOk(dir, s', s'.calls[c])
    {
      assert CallOk(dir, s, s.calls[c]);
    }
    InstallsTransfer(dir, s, s');
  }

  lemma InstallsTransfer(dir: string, s: State, s': State)
    requires InstallsOk(dir, s) && s'.installs == s.installs
    requires forall path :: path in s.files && IsCachePath(dir, path) ==> path in s'.files
    ensures InstallsOk(dir, s')
  {
    hide IsCachePath;
  }

  lemma FinishKeepsInv(dir: string, s: State, f: string, result: Result)
    requires InvBut(dir, s, f) && f in s.fetches && TileKeyString(s.fetches[f].key) == f
    requires var path := CachePath(dir, s.fetches[f].key);
             result.Served? ==> path in s.files && s.files[path] == result.tile
    ensures Inv(dir, Finish(s, f, result))
  {
    hide FetchOk, InstallsOk, CachePath, TileKeyString;
    var s' := Finish(s, f, result);
    NamesApart(dir);
    forall c | c in s'.calls
      ensures CallOk(dir, s', s'.calls[c])
    {
      assert CallOk(dir, s, s.calls[c]);
    }
    InstallsTransfer(dir, s, s');
  }

  /** Nothing but the fetch itself notices a change of its temporary file. */
  lemma TempChangeKeeps(dir: string, s: State, f: string, key: Key, files: Files)
    requires InvBut(dir, s, f) && TileKeyString(key) == f
    requires forall path :: path != TempPath(dir, key) ==>
               (path in files <==> path in s.files) && (path in files ==> files[path] == s.files[path])
    ensures InvBut(dir, s.(files := files), f)
  {
    hide CachePath, TempPath, TileKeyString;
    var s' := s.(files := files);
    NamesApart(dir);
    forall c | c in s'.calls
      ensures CallOk(dir, s', s'.calls[c])
    {
      assert CallOk(dir, s, s.calls[c]);
    }
    forall g | g in s'.fetches && g != f
      ensures FetchOk(dir, s'.files, g, s'.fetches[g])
    {
      assert FetchOk(dir, s.files, g, s.fetches[g]);
    }
    InstallsTransfer(dir, s, s');
  }

  /** A rename into place is the first for its tile and disturbs nobody else. */
  lemma InstallKeeps(dir: string, s: State, f: string, key: Key)
    requires InvBut(dir, s, f) && TileKeyString(key) == f
    requires TempPath(dir, key) in s.files && CachePath(dir, key) !in s.files
    ensures InvBut(dir, Installed(s, CachePath(dir, key), TempPath(dir, key)), f)
  {
    hide CachePath, TempPath, TileKeyString;
    var path, temp := CachePath(dir, key), TempPath(dir, key);
    var s' := Installed(s, path, temp);
    NamesApart(dir);
    forall c | c in s'.calls
      ensures CallOk(dir, s', s'.calls[c])
    {
      assert CallOk(dir, s, s.calls[c]);
    }
    forall g | g in s'.fetches && g != f
      ensures FetchOk(dir, s'.files, g, s'.fetches[g])
    {
      assert FetchOk(dir, s.files, g, s.fetches[g]);
    }
    assert path !in s.installs;
    assert IsCachePath(dir, path);
  }

  lemma CallStepKeepsInv(dir: string, s: State, e: Event)
    requires Inv(dir, s) && OfCall(e)
    ensures Inv(dir, CallStep(dir, s, e))
  {
    hide CachePath, TempPath, TileKeyString, InstallsOk;
    var s' := CallStep(dir, s, e);
    InstallsTransfer(dir, s, s');
    forall c | c in s'.calls
      ensures CallOk(dir, s', s'.calls[c])
    {
      assert c in s.calls ==> CallOk(dir, s, s.calls[c]);
    }
    forall g | g in s'.fetches
      ensures FetchOk(dir, s'.files, g, s'.fetches[g])
    {
      assert g in s.fetches ==> FetchOk(dir, s.files, g, s.fetches[g]);
    }
  }

  lemma InvImpliesInvBut(dir: string, s: State, f: string)
    requires Inv(dir, s)
    ensures InvBut(dir, s, f)
    ensures f in s.fetches ==> FetchOk(dir, s.files, f, s.fetches[f])
  {
    hide FetchOk, CallOk, InstallsOk;
  }

  lemma FileStepKeepsInv(dir: string, s: State, e: Event)
    requires Inv(dir, s) && (e.OpenTemp? || e.WriteTemp? || e.Rename? || e.RemoveTemp?) && e.flight in s.fetches
    ensures Inv(dir, FetchStep(dir, s, e))
  {
    hide CachePath, TempPath, TileKeyString, Inv, InvBut, Finish, WithFetch;
    NamesApart(dir);
    var f := e.flight;
    var key, phase := s.fetches[f].key, s.fetches[f].phase;
    var path, temp := CachePath(dir, key), TempPath(dir, key);
    InvImpliesInvBut(dir, s, f);
    match e
    case OpenTemp(_, now, fails) =>
      if phase.Opening? {
        if fails {
          FinishKeepsInv(dir, s, f, Failed(WriteFailed));
        } else {
          var files := s.files[temp := File([], now)];
          TempChangeKeeps(dir, s, f, key, files);
          AdvanceKeepsInv(dir, s.(files := files), f, Writing(phase.data));
        }
      }
    case WriteTemp(_, now, written) =>
      if phase.Writing? {
        var files := s.files[temp := File(if written.Some? then written.value else phase.data, now)];
        TempChangeKeeps(dir, s, f, key, files);
        if written.Some? {
          FinishKeepsInv(dir, s.(files := files), f, Failed(WriteFailed));
        } else {
          AdvanceKeepsInv(dir, s.(files := files), f, Renaming(phase.data));
        }
      }
    case Rename(_, fails) =>
      if phase.Renaming? {
        if fails {
          AdvanceKeepsInv(dir, s, f, Removing);
        } else {
          InstallKeeps(dir, s, f, key);
          AdvanceKeepsInv(dir, Installed(s, path, temp), f, Stamping(phase.data));
        }
      }
    case RemoveTemp(_) =>
      if phase == Removing {
        TempChangeKeeps(dir, s, f, key, s.files - {temp});
        FinishKeepsInv(dir, s.(files := s.files - {temp}), f, Failed(RenameFailed));
      }
  }

  lemma NetStepKeepsInv(dir: string, s: State, e: Event)
    requires Inv(dir, s) && (e.Recheck? || e.Reread? || e.Download? || e.Abort? || e.Stamp?) && e.flight in s.fetches
    ensures Inv(dir, FetchStep(dir, s, e))
  {
    hide CachePath, TempPath, TileKeyString, Inv, InvBut, Finish, WithFetch;
    var f := e.flight;
    var key, phase := s.fetches[f].key, s.fetches[f].phase;
    var path := CachePath(dir, key);
    InvImpliesInvBut(dir, s, f);
    match e
    case Recheck(_, fails) =>
      if phase == Rechecking {
        if fails {
          FinishKeepsInv(dir, s, f, Failed(StatFailed));
        } else {
          AdvanceKeepsInv(dir, s, f, if path in s.files then Rereading(s.files[path].modifiedAt) else Fetching);
        }
      }
    case Reread(_, fails) =>
      if phase.Rereading? {
        FinishKeepsInv(dir, s, f,
          if fails then Failed(ReadFailed) else Served(File(s.files[path].data, phase.modifiedAt)));
      }
    case Download(_, body) =>
      if phase == Fetching {
        if body.None? {
          FinishKeepsInv(dir, s, f, Failed(FetchFailed));
        } else {
          AdvanceKeepsInv(dir, s, f, Opening(body.value));
        }
      }
    case Abort(_) =>
      if phase == Fetching {
        FinishKeepsInv(dir, s, f, Failed(Cancelled(s.fetches[f].leader)));
      }
    case Stamp(_, fails) =>
      if phase.Stamping? {
        FinishKeepsInv(dir, s, f,
          if fails then Failed(StatFailed) else Served(File(phase.data, s.files[path].modifiedAt)));
      }
  }

  lemma StepKeepsInv(dir: string, s: State, e: Event)
    requires Inv(dir, s)
    ensures Inv(dir, Step(dir, s, e))
  {
    hide Inv, CallStep;
    if OfCall(e) {
      CallStepKeepsInv(dir, s, e);
    } else if e.flight in s.fetches {
      if e.OpenTemp? || e.WriteTemp? || e.Rename? || e.RemoveTemp? {
        FileStepKeepsInv(dir, s, e);
      } else {
        NetStepKeepsInv(dir, s, e);
      }
    }
  }

  lemma {:induction false} RunKeepsInv(dir: string, s: State, events: seq<Event>)
    requires Inv(dir, s)
    ensures Inv(dir, Run(dir, s, events))
    decreases |events|
  {
    hide Inv, Step;
    if events != [] {
      StepKeepsInv(dir, s, events[0]);
      RunKeepsInv(dir, Step(dir, s, events[0]), events[1..]);
    }
  }

  lemma StartedInv(dir: string, files: Files)
    ensures Inv(dir, Started(files))
  {
  }

  // ---------------------------------------------------------------- results over every interleaving

  predicate ServedIn(s: State, c: nat) {
    c in s.calls && s.calls[c].phase.Done? && s.calls[c].phase.result.Served?
  }

  /** Every caller ever served for a tile got the same bytes and time stamp, which are those of its cache file. */
  lemma ServedTilesAgree(dir: string, files: Files, events: seq<Event>, c: nat, d: nat)
    requires var s := Run(dir, Started(files), events);
             ServedIn(s, c) && ServedIn(s, d) && s.calls[c].key == s.calls[d].key
    ensures var s := Run(dir, Started(files), events);
            var path := CachePath(dir, s.calls[c].key);
            && s.calls[c].phase.result == s.calls[d].phase.result
            && path in s.files && s.files[path] == s.calls[c].phase.result.tile
  {
    hide Run, CachePath;
    StartedInv(dir, files);
    RunKeepsInv(dir, Started(files), events);
    var s := Run(dir, Started(files), events);
    assert CallOk(dir, s, s.calls[c]) && CallOk(dir, s, s.calls[d]);
  }

  /** No file is put in place twice. */
  lemma InstalledAtMostOnce(dir: string, files: Files, events: seq<Event>)
    ensures var installs := Run(dir, Started(files), events).installs;
            forall i, j :: 0 <= i < j < |installs| ==> installs[i] != installs[j]
  {
    hide Run, CallsOk, FetchOk;
    StartedInv(dir, files);
    RunKeepsInv(dir, Started(files), events);
  }

  /** Writing under a temporary path is the right of one fetch at a time, and what that fetch renames into
      place is exactly what it downloaded. */
  lemma OneWriterPerTempPath(dir: string, files: Files, events: seq<Event>, f: string, g: string)
    requires var s := Run(dir, Started(files), events);
             && f in s.fetches && g in s.fetches
             && TempPath(dir, s.fetches[f].key) == TempPath(dir, s.fetches[g].key)
    ensures var s := Run(dir, Started(files), events);
            var temp := TempPath(dir, s.fetches[f].key);
            && f == g
            && (s.fetches[f].phase.Renaming? ==> temp in s.files && s.files[temp].data == s.fetches[f].phase.data)
  {
    hide Run, TempPath, TileKeyString, CallsOk, InstallsOk;
    StartedInv(dir, files);
    RunKeepsInv(dir, Started(files), events);
    var s := Run(dir, Started(files), events);
    NamesApart(dir);
    assert FetchOk(dir, s.files, f, s.fetches[f]) && FetchOk(dir, s.files, g, s.fetches[g]);
  }

  /** A tile in the cache is neither changed by any step nor downloaded again. */
  lemma StepKeepsTiles(dir: string, s: State, e: Event, key: Key)
    requires Inv(dir, s) && CachePath(dir, key) in s.files
    ensures var s' := Step(dir, s, e);
            CachePath(dir, key) in s'.files && s'.files[CachePath(dir, key)] == s.files[CachePath(dir, key)]
    ensures e.Download? && FetchIs(s, e.flight, Fetching) ==> s.fetches[e.flight].key != key
  {
    hide CachePath, TempPath, TileKeyString, CallsOk, InstallsOk;
    NamesApart(dir);
    if !OfCall(e) && e.flight in s.fetches {
      assert FetchOk(dir, s.files, e.flight, s.fetches[e.flight]);
    }
  }

  lemma {:induction false} TilesStay(dir: string, s: State, events: seq<Event>, key: Key)
    requires Inv(dir, s) && CachePath(dir, key) in s.files
    ensures var s' := Run(dir, s, events);
            CachePath(dir, key) in s'.files && s'.files[CachePath(dir, key)] == s.files[CachePath(dir, key)]
    decreases |events|
  {
    hide Inv, Step, CachePath;
    if events != [] {
      StepKeepsInv(dir, s, events[0]);
      StepKeepsTiles(dir, s, events[0], key);
      TilesStay(dir, Step(dir, s, events[0]), events[1..], key);
    }
  }

  // ---------------------------------------------------------------- whose cancellation

  predicate NotCancelled(p: CallPhase) {
    p.Done? && p.result.Failed? ==> !p.result.failure.Cancelled?
  }

  /** Why a call may fail as cancelled: the leader of a fetch of the same tile went away. */
  ghost predicate CauseOk(s: State, c: Call) {
    c.phase.Done? && c.phase.result.Failed? && c.phase.result.failure.Cancelled? ==>
      var cause := c.phase.result.failure.cause;
      cause in s.cancelled && cause in s.calls && s.calls[cause].key == c.key
  }

  ghost predicate LeaderOk(s: State, flight: string) {
    flight in s.fetches ==>
      && s.fetches[flight].leader in s.calls && s.calls[s.fetches[flight].leader].key == s.fetches[flight].key
      && TileKeyString(s.fetches[flight].key) == flight
  }

  ghost predicate CausesOk(s: State) {
    && (forall c :: c in s.calls ==> CauseOk(s, s.calls[c]))
    && (forall flight :: LeaderOk(s, flight))
  }

  lemma FinishKeepsCauses(s: State, flight: string, result: Result)
    requires CausesOk(s) && flight in s.fetches
    requires result.Failed? && result.failure.Cancelled? ==>
               result.failure.cause == s.fetches[flight].leader && result.failure.cause in s.cancelled
    ensures CausesOk(Finish(s, flight, result))
  {
    hide TileKeyString;
    var s' := Finish(s, flight, result);
    assert LeaderOk(s, flight);
    forall c | c in s'.calls
      ensures CauseOk(s', s'.calls[c])
    {
      assert CauseOk(s, s.calls[c]);
      TileKeyStringIsKey(s.calls[c].key, s.fetches[flight].key);
    }
    forall g
      ensures LeaderOk(s', g)
    {
      assert LeaderOk(s, g);
    }
  }

  lemma TileKeyStringIsKey(k: Key, l: Key)
    ensures TileKeyString(k) == TileKeyString(l) ==> k == l
  {
    hide TileKeyString;
    NamesApart("");
  }

  /** Changes that neither end a call as cancelled nor start or re-key a fetch. */
  lemma CausesTransfer(s: State, s': State)
    requires CausesOk(s) && s.cancelled <= s'.cancelled && s.calls.Keys <= s'.calls.Keys
    requires forall c :: c in s.calls ==> s'.calls[c].key == s.calls[c].key
    requires forall c :: c in s'.calls && !NotCancelled(s'.calls[c].phase) ==>
               c in s.calls && s'.calls[c].phase == s.calls[c].phase
    requires forall f :: f in s'.fetches && f in s.fetches ==>
               s'.fetches[f].leader == s.fetches[f].leader && s'.fetches[f].key == s.fetches[f].key
    requires forall f :: f in s'.fetches && f !in s.fetches ==> LeaderOk(s', f)
    ensures CausesOk(s')
  {
    hide TileKeyString;
    forall c | c in s'.calls
      ensures CauseOk(s', s'.calls[c])
    {
      assert c in s.calls ==> CauseOk(s, s.calls[c]);
    }
    forall f
      ensures LeaderOk(s', f)
    {
      assert LeaderOk(s, f);
    }
  }

  lemma JoinKeepsCauses(dir: string, s: State, c: nat)
    requires CausesOk(s)
    ensures CausesOk(CallStep(dir, s, Join(c)))
  {
    hide CausesOk, TileKeyString;
    CausesTransfer(s, CallStep(dir, s, Join(c)));
  }

  lemma CallStepKeepsCauses(dir: string, s: State, e: Event)
    requires CausesOk(s) && OfCall(e)
    ensures CausesOk(CallStep(dir, s, e))
  {
    hide CausesOk, TileKeyString, CachePath;
    if e.Join? {
      JoinKeepsCauses(dir, s, e.call);
    } else {
      CausesTransfer(s, CallStep(dir, s, e));
    }
  }

  lemma FilesDoNotMatter(s: State, files: Files)
    requires CausesOk(s)
    ensures CausesOk(s.(files := files))
  {
    var s' := s.(files := files);
    forall c | c in s'.calls
      ensures CauseOk(s', s'.calls[c])
    {
      assert CauseOk(s, s.calls[c]);
    }
    forall f
      ensures LeaderOk(s', f)
    {
      assert LeaderOk(s, f);
    }
  }

  lemma AdvanceKeepsCauses(s: State, f: string, phase: FetchPhase, files: Files, installs: seq<string>)
    requires CausesOk(s) && f in s.fetches
    ensures CausesOk(WithFetch(s.(files := files, installs := installs), f, phase))
  {
    hide CausesOk, TileKeyString;
    CausesTransfer(s, WithFetch(s.(files := files, installs := installs), f, phase));
  }

  lemma FileStepKeepsCauses(dir: string, s: State, e: Event)
    requires CausesOk(s) && (e.OpenTemp? || e.WriteTemp? || e.Rename? || e.RemoveTemp?) && e.flight in s.fetches
    ensures CausesOk(FetchStep(dir, s, e))
  {
    hide CausesOk, TileKeyString, CachePath, TempPath, Finish, WithFetch;
    var f, temp := e.flight, TempPath(dir, s.fetches[e.flight].key);
    var phase := s.fetches[f].phase;
    match e
    case OpenTemp(_, now, fails) =>
      if phase.Opening? {
        FinishKeepsCauses(s, f, Failed(WriteFailed));
        AdvanceKeepsCauses(s, f, Writing(phase.data), s.files[temp := File([], now)], s.installs);
      }
    case WriteTemp(_, now, written) =>
      if phase.Writing? {
        var files := s.files[temp := File(if written.Some? then written.value else phase.data, now)];
        FilesDoNotMatter(s, files);
        FinishKeepsCauses(s.(files := files), f, Failed(WriteFailed));
        AdvanceKeepsCauses(s, f, Renaming(phase.data), files, s.installs);
      }
    case Rename(_, fails) =>
      if phase.Renaming? {
        AdvanceKeepsCauses(s, f, Removing, s.files, s.installs);
        if temp in s.files {
          var after := Installed(s, CachePath(dir, s.fetches[f].key), temp);
          AdvanceKeepsCauses(s, f, Stamping(phase.data), after.files, after.installs);
        }
      }
    case RemoveTemp(_) =>
      if phase == Removing {
        FilesDoNotMatter(s, s.files - {temp});
        FinishKeepsCauses(s.(files := s.files - {temp}), f, Failed(RenameFailed));
      }
  }

  lemma NetStepKeepsCauses(dir: string, s: State, e: Event)
    requires CausesOk(s) && (e.Recheck? || e.Reread? || e.Download? || e.Abort? || e.Stamp?) && e.flight in s.fetches
    ensures CausesOk(FetchStep(dir, s, e))
  {
    hide CausesOk, TileKeyString, CachePath, TempPath, Finish, WithFetch;
    var f, path := e.flight, CachePath(dir, s.fetches[e.flight].key);
    var phase := s.fetches[f].phase;
    match e
    case Recheck(_, fails) =>
      FinishKeepsCauses(s, f, Failed(StatFailed));
      var next := if path in s.files then Rereading(s.files[path].modifiedAt) else Fetching;
      AdvanceKeepsCauses(s, f, next, s.files, s.installs);
    case Reread(_, fails) =>
      FinishKeepsCauses(s, f, Failed(ReadFailed));
      if phase.Rereading? && path in s.files {
        FinishKeepsCauses(s, f, Served(File(s.files[path].data, phase.modifiedAt)));
      }
    case Download(_, body) =>
      FinishKeepsCauses(s, f, Failed(FetchFailed));
      if body.Some? {
        AdvanceKeepsCauses(s, f, Opening(body.value), s.files, s.installs);
      }
    case Abort(_) =>
      if s.fetches[f].leader in s.cancelled {
        FinishKeepsCauses(s, f, Failed(Cancelled(s.fetches[f].leader)));
      }
    case Stamp(_, fails) =>
      FinishKeepsCauses(s, f, Failed(StatFailed));
      if phase.Stamping? && path in s.files {
        FinishKeepsCauses(s, f, Served(File(phase.data, s.files[path].modifiedAt)));
      }
  }

  lemma StepKeepsCauses(dir: string, s: State, e: Event)
    requires CausesOk(s)
    ensures CausesOk(Step(dir, s, e))
  {
    hide CausesOk, CallStep;
    if OfCall(e) {
      CallStepKeepsCauses(dir, s, e);
    } else if e.flight in s.fetches {
      if e.OpenTemp? || e.WriteTemp? || e.Rename? || e.RemoveTemp? {
        FileStepKeepsCauses(dir, s, e);
      } else {
        NetStepKeepsCauses(dir, s, e);
      }
    }
  }

  lemma {:induction false} RunKeepsCauses(dir: string, s: State, events: seq<Event>)
    requires CausesOk(s)
    ensures CausesOk(Run(dir, s, events))
    decreases |events|
  {
    hide CausesOk, Step;
    if events != [] {
      StepKeepsCauses(dir, s, events[0]);
      RunKeepsCauses(dir, Step(dir, s, events[0]), events[1..]);
    }
  }

  lemma StartedCauses(files: Files)
    ensures CausesOk(Started(files))
  {
  }

  /** In every interleaving a call fails as cancelled only because a call for the same tile, itself or the one that
      started the fetch it waited for, was cancelled. */
  lemma CancelledOnlyThroughLeader(dir: string, files: Files, events: seq<Event>, c: nat)
    requires var s := Run(dir, Started(files), events);
             c in s.calls && s.calls[c].phase.Done? && s.calls[c].phase.result.Failed?
             && s.calls[c].phase.result.failure.Cancelled?
    ensures var s := Run(dir, Started(files), events);
            var cause := s.calls[c].phase.result.failure.cause;
            cause in s.cancelled && cause in s.calls && s.calls[cause].key == s.calls[c].key
  {
    hide Run, LeaderOk;
    StartedCauses(files);
    RunKeepsCauses(dir, Started(files), events);
  }

  ghost predicate FailsCancelled(s: State, c: nat, cause: nat) {
    c in s.calls && s.calls[c].phase == Done(Failed(Cancelled(cause)))
  }

  /** Exactly when the next step can fail a waiting call as cancelled: its fetch is downloading and the call that
      started the fetch was cancelled. Whether the waiting call itself was cancelled plays no part. */
  lemma WaiterFailsIff(dir: string, s: State, c: nat)
    requires Inv(dir, s) && c in s.calls && s.calls[c].phase == Waiting
    ensures var flight := TileKeyString(s.calls[c].key);
            && flight in s.fetches
            && ((exists e, cause :: FailsCancelled(Step(dir, s, e), c, cause)) <==>
                 FetchIs(s, flight, Fetching) && s.fetches[flight].leader in s.cancelled)
  {
    hide TileKeyString, CachePath, TempPath, FetchOk, InstallsOk;
    var flight := TileKeyString(s.calls[c].key);
    assert CallOk(dir, s, s.calls[c]);
    if FetchIs(s, flight, Fetching) && s.fetches[flight].leader in s.cancelled {
      assert FailsCancelled(Step(dir, s, Abort(flight)), c, s.fetches[flight].leader);
    }
    forall e, cause | FailsCancelled(Step(dir, s, e), c, cause)
      ensures FetchIs(s, flight, Fetching) && s.fetches[flight].leader in s.cancelled
    {
      OnlyAbortCancels(dir, s, e, c, cause);
    }
  }

  lemma OnlyAbortCancels(dir: string, s: State, e: Event, c: nat, cause: nat)
    requires c in s.calls && s.calls[c].phase == Waiting && FailsCancelled(Step(dir, s, e), c, cause)
    ensures var flight := TileKeyString(s.calls[c].key);
            FetchIs(s, flight, Fetching) && s.fetches[flight].leader in s.cancelled
  {
    hide TileKeyString, CachePath, TempPath;
  }

  /** The client of the call that started a fetch goes away while it downloads: then every other call waiting for
      the tile may fail with it, though none of their clients left. */
  lemma LeaderCancellationFailsWaiters(dir: string, s: State, c: nat)
    requires Inv(dir, s) && CausesOk(s) && c in s.calls && s.calls[c].phase == Waiting
    requires FetchIs(s, TileKeyString(s.calls[c].key), Fetching)
    ensures var flight := TileKeyString(s.calls[c].key);
            var leader := s.fetches[flight].leader;
            FailsCancelled(Step(dir, Step(dir, s, Cancel(leader)), Abort(flight)), c, leader)
  {
    hide TileKeyString, CachePath, TempPath, Inv;
    assert LeaderOk(s, TileKeyString(s.calls[c].key));
  }

  // ---------------------------------------------------------------- the uninterrupted code

  /** What goes wrong, and when the temporary file is written, during one uninterrupted call. */
  datatype Circumstances = Circumstances(
    lookFails: bool,
    readFails: bool,
    recheckFails: bool,
    rereadFails: bool,
    body: Option<Data>,
    openAt: int,
    openFails: bool,
    writeAt: int,
    written: Option<Data>,
    renameFails: bool,
    stampFails: bool)

  /** The files and the answer after a call that nothing interrupts. */
  function Alone(dir: string, files: Files, key: Key, x: Circumstances): (Files, Result) {
    var path := CachePath(dir, key);
    if x.lookFails then (files, Failed(StatFailed))
    else if path in files then (files, if x.readFails then Failed(ReadFailed) else Served(files[path]))
    else if x.recheckFails then (files, Failed(StatFailed))
    else if x.body.None? then (files, Failed(FetchFailed))
    else Stored(dir, files, key, x.body.value, x)
  }

  /** The files and the answer after storing a downloaded tile. */
  function Stored(dir: string, files: Files, key: Key, data: Data, x: Circumstances): (Files, Result) {
    var path, temp := CachePath(dir, key), TempPath(dir, key);
    if x.openFails then (files, Failed(WriteFailed))
    else if x.written.Some? then (files[temp := File(x.written.value, x.writeAt)], Failed(WriteFailed))
    else if x.renameFails then (files - {temp}, Failed(RenameFailed))
    else
      var installed := File(data, x.writeAt);
      (files[path := installed] - {temp}, if x.stampFails then Failed(StatFailed) else Served(installed))
  }

  /** A cache lookup: `None` is the error for a tile that is not cached. */
  function Lookup(dir: string, files: Files, key: Key, statFails: bool, readFails: bool): Option<Result> {
    var path := CachePath(dir, key);
    if statFails then Some(Failed(StatFailed))
    else if path !in files then None
    else if readFails then Some(Failed(ReadFailed))
    else Some(Served(files[path]))
  }

  class TileStore {
    const cacheDir: string
    var files: Files

    method ReadCachedTile(key: Key, statFails: bool, readFails: bool) returns (r: Option<Result>)
      ensures r == Lookup(cacheDir, files, key, statFails, readFails)
    {
      var path := CachePath(cacheDir, key);
      if statFails {
        return Some(Failed(StatFailed));
      }
      if path !in files {
        return None;
      }
      var modifiedAt := files[path].modifiedAt;
      if readFails {
        return Some(Failed(ReadFailed));
      }
      var data := files[path].data;
      r := Some(Served(File(data, modifiedAt)));
    }

    method WriteCachedTile(key: Key, data: Data, x: Circumstances) returns (r: Result)
      modifies this
      ensures (files, r) == Stored(cacheDir, old(files), key, data, x)
    {
      hide CachePath, TempPath;
      NamesApart(cacheDir);
      var path, tmpPath := CachePath(cacheDir, key), TempPath(cacheDir, key);
      if x.openFails {
        return Failed(WriteFailed);
      }
      files := files[tmpPath := File([], x.openAt)];
      if x.written.Some? {
        files := files[tmpPath := File(x.written.value, x.writeAt)];
        assert files == old(files)[tmpPath := File(x.written.value, x.writeAt)];
        return Failed(WriteFailed);
      }
      files := files[tmpPath := File(data, x.writeAt)];
      if x.renameFails {
        files := files - {tmpPath};
        assert files == old(files) - {tmpPath};
        return Failed(RenameFailed);
      }
      files := files[path := files[tmpPath]] - {tmpPath};
      assert files == old(files)[path := File(data, x.writeAt)] - {tmpPath};
      if x.stampFails {
        return Failed(StatFailed);
      }
      r := Served(File(data, files[path].modifiedAt));
    }

    method GetTile(key: Key, x: Circumstances) returns (r: Result)
      modifies this
      ensures (files, r) == Alone(cacheDir, old(files), key, x)
    {
      hide CachePath, TempPath;
      var tile := ReadCachedTile(key, x.lookFails, x.readFails);
      if tile.Some? {
        return tile.value;
      }
      var cached := ReadCachedTile(key, x.recheckFails, x.rereadFails);
      if cached.Some? {
        return cached.value;
      }
      if x.body.None? {
        return Failed(FetchFailed);
      }
      r := WriteCachedTile(key, x.body.value, x);
    }
  }

  // ---------------------------------------------------------------- the code is one interleaving

  /** The file-system operations of one call; those that its course does not reach have no effect. */
  function Operations(key: Key, x: Circumstances): seq<Event> {
    var flight := TileKeyString(key);
    [Arrive(0, key), Look(0, x.lookFails), Read(0, x.readFails), Join(0),
     Recheck(flight, x.recheckFails), Reread(flight, x.rereadFails), Download(flight, x.body),
     OpenTemp(flight, x.openAt, x.openFails), WriteTemp(flight, x.writeAt, x.written),
     Rename(flight, x.renameFails), RemoveTemp(flight), Stamp(flight, x.stampFails)]
  }

  function InFlight(files: Files, key: Key, phase: FetchPhase, installs: seq<string>): State {
    State(files, map[0 := Call(key, Waiting)], map[TileKeyString(key) := Fetch(key, phase, 0)], installs, {})
  }

  function Ended(files: Files, key: Key, result: Result, installs: seq<string>): State {
    State(files, map[0 := Call(key, Done(result))], map[], installs, {})
  }

  lemma FinishAlone(files: Files, key: Key, phase: FetchPhase, result: Result, installs: seq<string>)
    ensures Finish(InFlight(files, key, phase, installs), TileKeyString(key), result) ==
            Ended(files, key, result, installs)
  {
    hide TileKeyString;
  }

  lemma AdvanceAlone(files: Files, key: Key, phase: FetchPhase, next: FetchPhase, installs: seq<string>)
    ensures WithFetch(InFlight(files, key, phase, installs), TileKeyString(key), next) ==
            InFlight(files, key, next, installs)
  {
    hide TileKeyString;
  }

  lemma RunOne(dir: string, s: State, e: Event, rest: seq<Event>)
    ensures Run(dir, s, [e] + rest) == Run(dir, Step(dir, s, e), rest)
  {
    hide Step;
    assert ([e] + rest)[1..] == rest;
  }

  lemma RunFour(dir: string, s: State, a: Event, b: Event, c: Event, d: Event, rest: seq<Event>)
    ensures Run(dir, s, [a, b, c, d] + rest)
         == Run(dir, Step(dir, Step(dir, Step(dir, Step(dir, s, a), b), c), d), rest)
  {
    hide Run, Step;
    var s1 := Step(dir, s, a);
    var s2 := Step(dir, s1, b);
    var s3 := Step(dir, s2, c);
    assert [a, b, c, d] + rest == [a] + ([b, c, d] + rest);
    RunOne(dir, s, a, [b, c, d] + rest);
    assert [b, c, d] + rest == [b] + ([c, d] + rest);
    RunOne(dir, s1, b, [c, d] + rest);
    assert [c, d] + rest == [c] + ([d] + rest);
    RunOne(dir, s2, c, [d] + rest);
    RunOne(dir, s3, d, rest);
  }

  /** The caller's own steps. */
  lemma CallAlone(dir: string, files: Files, key: Key, x: Circumstances)
    ensures var s := Step(dir, Step(dir, Step(dir, Step(dir, Started(files),
                       Arrive(0, key)), Look(0, x.lookFails)), Read(0, x.readFails)), Join(0));
            s == if x.lookFails || CachePath(dir, key) in files then Ended(files, key, Alone(dir, files, key, x).1, [])
                 else InFlight(files, key, Rechecking, [])
  {
    hide CachePath, TempPath, TileKeyString, FetchStep, Stored;
    var s1 := Step(dir, Started(files), Arrive(0, key));
    assert s1 == State(files, map[0 := Call(key, Looking)], map[], [], {});
    var s2 := Step(dir, s1, Look(0, x.lookFails));
    if x.lookFails {
      assert s2 == Ended(files, key, Failed(StatFailed), []);
    } else if CachePath(dir, key) in files {
      assert s2 == State(files, map[0 := Call(key, Reading(files[CachePath(dir, key)].modifiedAt))], map[], [], {});
      var s3 := Step(dir, s2, Read(0, x.readFails));
      assert s3 == Ended(files, key, Alone(dir, files, key, x).1, []);
    } else {
      assert s2 == State(files, map[0 := Call(key, Missed)], map[], [], {});
    }
  }

  /** An ended call takes no further step. */
  lemma EndedStays(dir: string, files: Files, key: Key, result: Result, installs: seq<string>, e: Event)
    requires !OfCall(e)
    ensures Step(dir, Ended(files, key, result, installs), e) == Ended(files, key, result, installs)
  {
  }

  /** The first half of a fetch: look again, download, open the temporary file. */
  lemma DownloadAlone(dir: string, files: Files, key: Key, x: Circumstances)
    requires CachePath(dir, key) !in files
    ensures var f := TileKeyString(key);
            var s := Step(dir, Step(dir, Step(dir, Step(dir, InFlight(files, key, Rechecking, []),
                       Recheck(f, x.recheckFails)), Reread(f, x.rereadFails)), Download(f, x.body)),
                       OpenTemp(f, x.openAt, x.openFails));
            s == if x.recheckFails then Ended(files, key, Failed(StatFailed), [])
                 else if x.body.None? then Ended(files, key, Failed(FetchFailed), [])
                 else if x.openFails then Ended(files, key, Failed(WriteFailed), [])
                 else InFlight(files[TempPath(dir, key) := File([], x.openAt)], key, Writing(x.body.value), [])
  {
    hide CachePath, TempPath, TileKeyString, CallStep, Finish, WithFetch;
    var f, s0 := TileKeyString(key), InFlight(files, key, Rechecking, []);
    var e1, e2, e3 := Recheck(f, x.recheckFails), Reread(f, x.rereadFails), Download(f, x.body);
    var e4 := OpenTemp(f, x.openAt, x.openFails);
    if x.recheckFails {
      FinishAlone(files, key, Rechecking, Failed(StatFailed), []);
      EndedThrough(dir, files, key, Failed(StatFailed), [], e2, e3, e4);
    } else {
      AdvanceAlone(files, key, Rechecking, Fetching, []);
      var s1 := InFlight(files, key, Fetching, []);
      assert Step(dir, Step(dir, s0, e1), e2) == s1;
      if x.body.None? {
        FinishAlone(files, key, Fetching, Failed(FetchFailed), []);
        EndedStays(dir, files, key, Failed(FetchFailed), [], e4);
      } else {
        var data := x.body.value;
        AdvanceAlone(files, key, Fetching, Opening(data), []);
        var s2 := InFlight(files, key, Opening(data), []);
        assert Step(dir, s1, e3) == s2;
        FinishAlone(files, key, Opening(data), Failed(WriteFailed), []);
        AdvanceAlone(files[TempPath(dir, key) := File([], x.openAt)], key, Opening(data), Writing(data), []);
      }
    }
  }

  lemma EndedThrough(
    dir: string, files: Files, key: Key, result: Result, installs: seq<string>, a: Event, b: Event, c: Event)
    requires !OfCall(a)
    requires !OfCall(b)
    requires !OfCall(c)
    ensures var s := Ended(files, key, result, installs);
            Step(dir, Step(dir, Step(dir, s, a), b), c) == s
  {
    hide Step, Ended;
    EndedStays(dir, files, key, result, installs, a);
    EndedStays(dir, files, key, result, installs, b);
    EndedStays(dir, files, key, result, installs, c);
  }

  /** The second half of a fetch: write, rename, clean up, read the time stamp. */
  function AfterStore(dir: string, files: Files, key: Key, x: Circumstances, data: Data): State {
    var f := TileKeyString(key);
    var emptied := files[TempPath(dir, key) := File([], x.openAt)];
    Step(dir, Step(dir, Step(dir, Step(dir, InFlight(emptied, key, Writing(data), []),
      WriteTemp(f, x.writeAt, x.written)), Rename(f, x.renameFails)), RemoveTemp(f)), Stamp(f, x.stampFails))
  }

  lemma WriteFailsAlone(dir: string, files: Files, key: Key, x: Circumstances, data: Data)
    requires x.written.Some?
    ensures AfterStore(dir, files, key, x, data)
         == Ended(files[TempPath(dir, key) := File(x.written.value, x.writeAt)], key, Failed(WriteFailed), [])
  {
    hide CachePath, TempPath, TileKeyString, CallStep, Finish, WithFetch, Installed;
    var f, temp := TileKeyString(key), TempPath(dir, key);
    var emptied := files[temp := File([], x.openAt)];
    var written := emptied[temp := File(x.written.value, x.writeAt)];
    assert written == files[temp := File(x.written.value, x.writeAt)];
    FinishAlone(written, key, Writing(data), Failed(WriteFailed), []);
    EndedThrough(dir, written, key, Failed(WriteFailed), [], Rename(f, x.renameFails), RemoveTemp(f),
        Stamp(f, x.stampFails));
  }

  lemma WriteAlone(dir: string, files: Files, key: Key, x: Circumstances, data: Data)
    requires x.written.None?
    ensures var f, temp := TileKeyString(key), TempPath(dir, key);
            AfterStore(dir, files, key, x, data) ==
            Step(dir, Step(dir, Step(dir, InFlight(files[temp := File(data, x.writeAt)], key, Renaming(data), []),
              Rename(f, x.renameFails)), RemoveTemp(f)), Stamp(f, x.stampFails))
  {
    hide CachePath, TempPath, TileKeyString, CallStep, Finish, WithFetch, Installed;
    var f, temp := TileKeyString(key), TempPath(dir, key);
    var emptied := files[temp := File([], x.openAt)];
    var written := files[temp := File(data, x.writeAt)];
    assert emptied[temp := File(data, x.writeAt)] == written;
    AdvanceAlone(written, key, Writing(data), Renaming(data), []);
    assert Step(dir, InFlight(emptied, key, Writing(data), []), WriteTemp(f, x.writeAt, x.written))
        == InFlight(written, key, Renaming(data), []);
  }

  lemma RenameFailsAlone(dir: string, files: Files, key: Key, x: Circumstances, data: Data)
    requires x.written.None? && x.renameFails
    ensures AfterStore(dir, files, key, x, data)
         == Ended(files - {TempPath(dir, key)}, key, Failed(RenameFailed), [])
  {
    hide CachePath, TempPath, TileKeyString, CallStep, Finish, WithFetch, Installed, AfterStore;
    WriteAlone(dir, files, key, x, data);
    var f, temp := TileKeyString(key), TempPath(dir, key);
    var written := files[temp := File(data, x.writeAt)];
    AdvanceAlone(written, key, Renaming(data), Removing, []);
    assert Step(dir, InFlight(written, key, Renaming(data), []), Rename(f, x.renameFails)) ==
        InFlight(written, key, Removing, []);
    FinishAlone(written - {temp}, key, Removing, Failed(RenameFailed), []);
    EndedStays(dir, written - {temp}, key, Failed(RenameFailed), [], Stamp(f, x.stampFails));
    assert written - {temp} == files - {temp};
  }

  lemma RenameAlone(dir: string, files: Files, key: Key, x: Circumstances, data: Data)
    requires x.written.None? && !x.renameFails
    ensures var f, path, temp := TileKeyString(key), CachePath(dir, key), TempPath(dir, key);
            AfterStore(dir, files, key, x, data) ==
            Step(dir, InFlight(files[path := File(data, x.writeAt)] - {temp}, key, Stamping(data), [path]),
                Stamp(f, x.stampFails))
  {
    hide CachePath, TempPath, TileKeyString, CallStep, Finish, WithFetch, AfterStore;
    WriteAlone(dir, files, key, x, data);
    var f, path, temp := TileKeyString(key), CachePath(dir, key), TempPath(dir, key);
    var written := files[temp := File(data, x.writeAt)];
    var installed := files[path := File(data, x.writeAt)] - {temp};
    assert written[path := written[temp]] - {temp} == installed;
    assert [] + [path] == [path];
    AdvanceAlone(installed, key, Renaming(data), Stamping(data), [path]);
    var s1 := InFlight(written, key, Renaming(data), []);
    var s2 := InFlight(installed, key, Stamping(data), [path]);
    assert Installed(s1, path, temp) == InFlight(installed, key, Renaming(data), [path]);
    assert Step(dir, s1, Rename(f, x.renameFails)) == s2;
    assert Step(dir, s2, RemoveTemp(f)) == s2;
  }

  lemma StoreAlone(dir: string, files: Files, key: Key, x: Circumstances, data: Data)
    requires !x.openFails
    ensures var s := AfterStore(dir, files, key, x, data);
            var (stored, result) := Stored(dir, files, key, data, x);
            && s.files == stored
            && 0 in s.calls && s.calls[0] == Call(key, Done(result))
  {
    hide CachePath, TempPath, TileKeyString, CallStep, Finish, WithFetch, AfterStore;
    if x.written.Some? {
      WriteFailsAlone(dir, files, key, x, data);
    } else if x.renameFails {
      RenameFailsAlone(dir, files, key, x, data);
    } else {
      NamesApart(dir);
      RenameAlone(dir, files, key, x, data);
      var installed := files[CachePath(dir, key) := File(data, x.writeAt)] - {TempPath(dir, key)};
      FinishAlone(installed, key, Stamping(data), Failed(StatFailed), [CachePath(dir, key)]);
      FinishAlone(installed, key, Stamping(data), Served(File(data, x.writeAt)), [CachePath(dir, key)]);
    }
  }

  /** The uninterrupted code does what the interleaving of its own operations does: same files, same answer. */
  lemma AloneIsARun(dir: string, files: Files, key: Key, x: Circumstances)
    ensures var s := Run(dir, Started(files), Operations(key, x));
            var (after, result) := Alone(dir, files, key, x);
            s.files == after && 0 in s.calls && s.calls[0] == Call(key, Done(result))
  {
    hide Run, Step, CachePath, TileKeyString, Stored;
    var f := TileKeyString(key);
    var ops := Operations(key, x);
    var second := [Recheck(f, x.recheckFails), Reread(f, x.rereadFails), Download(f, x.body),
        OpenTemp(f, x.openAt, x.openFails)];
    var third := [WriteTemp(f, x.writeAt, x.written), Rename(f, x.renameFails), RemoveTemp(f), Stamp(f, x.stampFails)];
    assert ops == [ops[0], ops[1], ops[2], ops[3]] + (second + (third + []));
    assert second == [second[0], second[1], second[2], second[3]];
    assert third == [third[0], third[1], third[2], third[3]];
    RunFour(dir, Started(files), ops[0], ops[1], ops[2], ops[3], second + (third + []));
    CallAlone(dir, files, key, x);
    var s4 := Step(dir, Step(dir, Step(dir, Step(dir, Started(files), ops[0]), ops[1]), ops[2]), ops[3]);
    RunFour(dir, s4, second[0], second[1], second[2], second[3], third + []);
    var s8 := Step(dir, Step(dir, Step(dir, Step(dir, s4, second[0]), second[1]), second[2]), second[3]);
    RunFour(dir, s8, third[0], third[1], third[2], third[3], []);
    var s12 := Step(dir, Step(dir, Step(dir, Step(dir, s8, third[0]), third[1]), third[2]), third[3]);
    RunNothing(dir, s12);
    assert Run(dir, Started(files), ops) == s12;
    var (after, result) := Alone(dir, files, key, x);
    if x.lookFails || CachePath(dir, key) in files {
      EndedThrough(dir, files, key, result, [], second[0], second[1], second[2]);
      EndedStays(dir, files, key, result, [], second[3]);
    } else {
      DownloadAlone(dir, files, key, x);
    }
    if x.lookFails || CachePath(dir, key) in files || x.recheckFails || x.body.None? || x.openFails {
      StoredAnyway(dir, files, key, x);
      EndedThrough(dir, files, key, result, [], third[0], third[1], third[2]);
      EndedStays(dir, files, key, result, [], third[3]);
    } else {
      assert s8 == InFlight(files[TempPath(dir, key) := File([], x.openAt)], key, Writing(x.body.value), []);
      StoreAlone(dir, files, key, x, x.body.value);
      assert (after, result) == Stored(dir, files, key, x.body.value, x);
    }
  }

  lemma RunNothing(dir: string, s: State)
    ensures Run(dir, s, []) == s
  {
  }

  lemma StoredAnyway(dir: string, files: Files, key: Key, x: Circumstances)
    ensures x.openFails && x.body.Some? ==> Stored(dir, files, key, x.body.value, x) == (files, Failed(WriteFailed))
  {
  }
}
