/** Fetching one locked asset into a shared cache: what any number of
    concurrent fetchers do to the cache directory, one system call at a time. */
module AssetFetch {
  import opened Text
  import opened Streaming

  datatype Asset = Asset(filename: string, size: nat, sha256: string, hash: Bytes -> string)

  predicate Locked(asset: Asset, content: Bytes) {
    |content| == asset.size && asset.hash(content) == asset.sha256
  }

  // ---- The two loops over an open descriptor ----

  class OpenFile {
    var content: Bytes

    /** A quiet system accepts at least one byte of every write. */
    method WriteAll(quiet: bool, value: Bytes) returns (ok: bool)
      modifies this
      ensures quiet ==> ok
      ensures old(content) <= content <= old(content) + value && (ok ==> content == old(content) + value)
    {
      var view := value;
      ghost var begun := content;
      while view != []
        invariant content + view == begun + value && begun <= content
        decreases |view|
      {
        var written: nat :| written <= |view| && (quiet ==> written > 0);
        if written == 0 {
          return false;
        }
        content, view := content + view[..written], view[written..];
      }
      ok := true;
    }

    /** Stores a response body as it arrives; succeeds only with the locked bytes. */
    method Download(quiet: bool, asset: Asset, response: Bytes) returns (ok: bool, ghost trace: seq<Event>)
      requires content == []
      modifies this
      ensures Watched(trace) && content <= response && |content| <= asset.size
      ensures ok ==> content == response && Locked(asset, response)
      ensures quiet ==> (ok <==> Locked(asset, response))
    {
      var total, since, rest := 0, RECHECK, response;
      var digested: Bytes := [];
      trace := [];
      while true
        invariant content == digested && digested + rest == response && total == |digested| <= asset.size
        invariant Watched(trace) && SinceCheck(trace) <= since < RECHECK + CHUNK
        decreases |rest|, since
      {
        if since >= RECHECK {
          var blocked;
          blocked, trace := PriorityCheck(quiet, trace);
          if blocked {
            return false, trace;
          }
          since := 0;
        }
        var chunk := Read(rest, CHUNK);
        if chunk == [] {
          break;
        }
        total, since := total + |chunk|, since + |chunk|;
        WatchedOneMore(trace, Moved(|chunk|));
        trace := trace + [Moved(|chunk|)];
        if total > asset.size {
          assert |response| == |digested| + |rest| >= total;
          return false, trace;
        }
        digested, rest := digested + chunk, rest[|chunk|..];
        ghost var before := content;
        var stored := WriteAll(quiet, chunk);
        assert before + chunk == digested && digested + rest == response;
        if !stored {
          return false, trace;
        }
      }
      assert rest == [] && digested == response;
      ok := total == asset.size && asset.hash(digested) == asset.sha256;
    }
  }

  /** Hashes an open asset from beginning to end: only the locked bytes pass, and
      on a quiet system they do. */
  method VerifyOpenAsset(quiet: bool, asset: Asset, content: Bytes) returns (ok: bool, ghost trace: seq<Event>)
    ensures Watched(trace)
    ensures ok ==> Locked(asset, content) && trace != [] && trace[|trace| - 1] == Check
    ensures quiet ==> (ok <==> Locked(asset, content))
  {
    trace := [];
    if |content| != asset.size {
      return false, trace;
    }
    var stop, digested;
    stop, digested, trace := HashStream(quiet, content, asset.size, trace);
    if !stop.Complete? || asset.hash(digested) != asset.sha256 {
      return false, trace;
    }
    var blocked;
    blocked, trace := PriorityCheck(quiet, trace);
    ok := !blocked;
  }

  // ---- The cache directory and its fetchers ----

  type Inode = nat

  /** The names in the cache root, and the bytes of every file ever created. */
  datatype Cache = Cache(names: map<string, Inode>, inodes: map<Inode, Bytes>)

  datatype Temp = Temp(name: string, inode: Inode)

  /** Why a fetcher verifies: before anything else, because the name turned out
      to be taken, or before it returns. */
  datatype Goal = First | Taken(temp: Temp) | Final

  datatype Phase =
    | Opening(goal: Goal)
    | Verifying(goal: Goal, inode: Inode, read: Bytes)
    | Creating
    | Downloading(temp: Temp, pending: Bytes, received: Bytes)
    | Syncing(temp: Temp)
    | Linking(temp: Temp)
    | Checking(temp: Temp, cleanup: bool)
    | Removing(temp: Temp, cleanup: bool)
    | Returned(inode: Inode)
    | Failed
    | Crashed

  function Held(phase: Phase): Option<Temp> {
    match phase
    case Opening(Taken(temp)) => Some(temp)
    case Verifying(Taken(temp), _, _) => Some(temp)
    case Downloading(temp, _, _) => Some(temp)
    case Syncing(temp) => Some(temp)
    case Linking(temp) => Some(temp)
    case Checking(temp, _) => Some(temp)
    case Removing(temp, _) => Some(temp)
    case _ => None
  }

  /** Where an exception leads: into cleaning the temporary up, if there is one. */
  function Raised(phase: Phase): Phase {
    match phase
    case Checking(_, true) => Failed
    case Removing(_, true) => Failed
    case _ => if Held(phase).Some? then Checking(Held(phase).value, true) else Failed
  }

  predicate IsTemporary(name: string) {
    |name| >= 10 && name[..10] == ".download-"
  }

  predicate Done(phase: Phase) {
    phase.Returned? || phase.Failed? || phase.Crashed?
  }

  /** What a fetcher does when a verification has read the whole file. */
  predicate Verified(asset: Asset, cache: Cache, phase: Phase)
    requires phase.Verifying? && phase.inode in cache.inodes
  {
    && |phase.read| == |cache.inodes[phase.inode]|
    && Locked(asset, phase.read)
    && asset.filename in cache.names && cache.names[asset.filename] == phase.inode
  }

  function AfterVerifying(phase: Phase): Phase
    requires phase.Verifying?
  {
    match phase.goal
    case Taken(temp) => Checking(temp, false)
    case _ => Returned(phase.inode)
  }

  ghost predicate Opens(asset: Asset, c: Cache, p: Phase, d: Cache, q: Phase) {
    && p.Opening? && d == c
    && if asset.filename in c.names then q == Verifying(p.goal, c.names[asset.filename], [])
       else q == if p.goal.First? then Creating else Raised(p)
  }

  ghost predicate Reads(asset: Asset, c: Cache, p: Phase, d: Cache, q: Phase) {
    && p.Verifying? && d == c && p.inode in c.inodes
    && var content := c.inodes[p.inode];
       if |p.read| < |content| then
         q.Verifying? && q == p.(read := q.read) && |p.read| < |q.read| <= |content|
         && q.read == p.read + content[|p.read|..|q.read|]
       else q == if Verified(asset, c, p) then AfterVerifying(p) else Raised(p)
  }

  ghost predicate Creates(asset: Asset, c: Cache, p: Phase, d: Cache, q: Phase) {
    && p.Creating? && q.Downloading? && q.pending == [] && q.received == []
    && IsTemporary(q.temp.name) && q.temp.name !in c.names && q.temp.inode !in c.inodes
    && d == Cache(c.names[q.temp.name := q.temp.inode], c.inodes[q.temp.inode := []])
  }

  ghost predicate Receives(asset: Asset, c: Cache, p: Phase, d: Cache, q: Phase) {
    && p.Downloading? && p.pending == [] && d == c
    && if q.Downloading? then
         q.pending != [] && |p.received| + |q.pending| <= asset.size
         && q == Downloading(p.temp, q.pending, p.received + q.pending)
       else q == Raised(p)
  }

  ghost predicate Writes(asset: Asset, c: Cache, p: Phase, d: Cache, q: Phase) {
    && p.Downloading? && p.temp.inode in c.inodes
    && q.Downloading? && |q.pending| < |p.pending|
    && var written := |p.pending| - |q.pending|;
       q == p.(pending := p.pending[written..])
       && d == c.(inodes := c.inodes[p.temp.inode := c.inodes[p.temp.inode] + p.pending[..written]])
  }

  ghost predicate EndsDownload(asset: Asset, c: Cache, p: Phase, d: Cache, q: Phase) {
    && p.Downloading? && p.pending == [] && d == c
    && q == if Locked(asset, p.received) then Syncing(p.temp) else Raised(p)
  }

  ghost predicate Syncs(asset: Asset, c: Cache, p: Phase, d: Cache, q: Phase) {
    && p.Syncing? && d == c && p.temp.inode in c.inodes
    && q == if |c.inodes[p.temp.inode]| == asset.size then Linking(p.temp) else Raised(p)
  }

  /** link(2) without replacement: atomically binds the name, or finds it taken. */
  ghost predicate Links(asset: Asset, c: Cache, p: Phase, d: Cache, q: Phase) {
    && p.Linking? && p.temp.name in c.names
    && if asset.filename in c.names then d == c && q == Opening(Taken(p.temp))
       else d == c.(names := c.names[asset.filename := c.names[p.temp.name]]) && q == Checking(p.temp, false)
  }

  function AfterRemoval(phase: Phase): Phase
    requires phase.Checking? || phase.Removing?
  {
    if phase.cleanup then Failed else Opening(Final)
  }

  ghost predicate Checks(asset: Asset, c: Cache, p: Phase, d: Cache, q: Phase) {
    && p.Checking? && d == c
    && q == if p.temp.name !in c.names then AfterRemoval(p)
            else if c.names[p.temp.name] != p.temp.inode then Raised(p)
            else Removing(p.temp, p.cleanup)
  }

  ghost predicate Removes(asset: Asset, c: Cache, p: Phase, d: Cache, q: Phase) {
    p.Removing? && d == c.(names := c.names - {p.temp.name}) && q == AfterRemoval(p)
  }

  /** One step of one fetcher; any call may also raise, and the process may die. */
  ghost predicate Next(asset: Asset, c: Cache, p: Phase, d: Cache, q: Phase) {
    || Opens(asset, c, p, d, q) || Reads(asset, c, p, d, q) || Creates(asset, c, p, d, q)
    || Receives(asset, c, p, d, q) || Writes(asset, c, p, d, q) || EndsDownload(asset, c, p, d, q)
    || Syncs(asset, c, p, d, q) || Links(asset, c, p, d, q) || Checks(asset, c, p, d, q) || Removes(asset, c, p, d, q)
    || (!Done(p) && d == c && (q == Raised(p) || q == Crashed))
  }

  // ---- What holds of one fetcher ----

  /** The temporary name is bound to its own inode, and is not the asset's name. */
  predicate Bound(asset: Asset, c: Cache, temp: Temp) {
    && temp.name in c.names && c.names[temp.name] == temp.inode && temp.name != asset.filename
    && temp.inode in c.inodes
  }

  /** Not yet published: the asset's name means another file, if any. */
  predicate Private(asset: Asset, c: Cache, temp: Temp) {
    Bound(asset, c, temp) && (asset.filename in c.names ==> c.names[asset.filename] != temp.inode)
  }

  predicate IsAsset(asset: Asset, c: Cache, inode: Inode) {
    asset.filename in c.names && c.names[asset.filename] == inode && inode in c.inodes
  }

  ghost predicate PhaseInv(asset: Asset, c: Cache, p: Phase) {
    && (Held(p).Some? ==> Bound(asset, c, Held(p).value))
    && match p
       case Verifying(_, inode, read) => IsAsset(asset, c, inode) && read <= c.inodes[inode]
       case Downloading(temp, pending, received) =>
         Private(asset, c, temp) && c.inodes[temp.inode] + pending == received && |received| <= asset.size
       case Syncing(temp) => Private(asset, c, temp) && Locked(asset, c.inodes[temp.inode])
       case Linking(temp) => Private(asset, c, temp) && Locked(asset, c.inodes[temp.inode])
       case Returned(inode) => IsAsset(asset, c, inode)
       case _ => true
  }

  /** Every name has a file, and the asset's name only ever the locked bytes. */
  ghost predicate CacheInv(asset: Asset, c: Cache) {
    && (forall n :: n in c.names ==> c.names[n] in c.inodes)
    && (asset.filename in c.names ==> Locked(asset, c.inodes[c.names[asset.filename]]))
  }

  /** What other fetchers may rely on when one, holding `own`, takes a step. */
  ghost predicate Respects(asset: Asset, c: Cache, d: Cache, own: Option<Temp>) {
    && (forall i :: i in c.inodes ==> i in d.inodes && (d.inodes[i] == c.inodes[i] || (own.Some? && own.value.inode == i)))
    && (forall n :: n in c.names ==> (n in d.names && d.names[n] == c.names[n]) || (own.Some? && own.value.name == n))
    && (asset.filename in c.names && c.names[asset.filename] in c.inodes ==>
          IsAsset(asset, d, c.names[asset.filename])
          && d.inodes[c.names[asset.filename]] == c.inodes[c.names[asset.filename]])
    && (asset.filename !in c.names && asset.filename in d.names ==> own.Some? && d.names[asset.filename] == own.value.inode)
  }

  ghost predicate Fresh(c: Cache, temp: Temp) {
    temp.name !in c.names && temp.inode !in c.inodes
  }

  ghost predicate KeepsTemp(c: Cache, p: Phase, q: Phase) {
    Held(q).Some? ==> Held(q) == Held(p) || Fresh(c, Held(q).value)
  }

  /** The lock admits only names that begin with a letter or a digit. */
  predicate Portable(asset: Asset) {
    asset.filename != "" && asset.filename[0] != '.'
  }

  ghost predicate Kept(asset: Asset, c: Cache, p: Phase, d: Cache, q: Phase) {
    CacheInv(asset, d) && PhaseInv(asset, d, q) && Respects(asset, c, d, Held(p)) && KeepsTemp(c, p, q)
  }

  lemma DirectoryStepsKeep(asset: Asset, c: Cache, p: Phase, d: Cache, q: Phase)
    requires Portable(asset) && CacheInv(asset, c) && PhaseInv(asset, c, p)
    requires Opens(asset, c, p, d, q) || Creates(asset, c, p, d, q) || Links(asset, c, p, d, q)
             || Checks(asset, c, p, d, q) || Removes(asset, c, p, d, q)
    ensures Kept(asset, c, p, d, q)
  {
  }

  lemma ReadStepsKeep(asset: Asset, c: Cache, p: Phase, d: Cache, q: Phase)
    requires Portable(asset) && CacheInv(asset, c) && PhaseInv(asset, c, p)
    requires Reads(asset, c, p, d, q)
    ensures Kept(asset, c, p, d, q)
  {
  }

  lemma TransferStepsKeep(asset: Asset, c: Cache, p: Phase, d: Cache, q: Phase)
    requires Portable(asset) && CacheInv(asset, c) && PhaseInv(asset, c, p)
    requires Receives(asset, c, p, d, q) || EndsDownload(asset, c, p, d, q) || Syncs(asset, c, p, d, q)
    ensures Kept(asset, c, p, d, q)
  {
    if p.Downloading? && p.pending == [] {
      assert c.inodes[p.temp.inode] + p.pending == c.inodes[p.temp.inode];
    }
  }

  lemma WriteStepsKeep(asset: Asset, c: Cache, p: Phase, d: Cache, q: Phase)
    requires Portable(asset) && CacheInv(asset, c) && PhaseInv(asset, c, p)
    requires Writes(asset, c, p, d, q)
    ensures Kept(asset, c, p, d, q)
  {
  }

  lemma OwnStepKeeps(asset: Asset, c: Cache, p: Phase, d: Cache, q: Phase)
    requires Portable(asset) && CacheInv(asset, c) && PhaseInv(asset, c, p) && Next(asset, c, p, d, q)
    ensures Kept(asset, c, p, d, q)
  {
    if Opens(asset, c, p, d, q) || Creates(asset, c, p, d, q) || Links(asset, c, p, d, q)
       || Checks(asset, c, p, d, q) || Removes(asset, c, p, d, q) {
      DirectoryStepsKeep(asset, c, p, d, q);
    } else if Reads(asset, c, p, d, q) {
      ReadStepsKeep(asset, c, p, d, q);
    } else if Writes(asset, c, p, d, q) {
      WriteStepsKeep(asset, c, p, d, q);
    } else if Receives(asset, c, p, d, q) || EndsDownload(asset, c, p, d, q) || Syncs(asset, c, p, d, q) {
      TransferStepsKeep(asset, c, p, d, q);
    }
  }

  predicate Apart(a: Option<Temp>, b: Option<Temp>) {
    a.Some? && b.Some? ==> a.value.name != b.value.name && a.value.inode != b.value.inode
  }

  lemma OthersAreUndisturbed(asset: Asset, c: Cache, d: Cache, own: Option<Temp>, other: Phase)
    requires CacheInv(asset, c) && PhaseInv(asset, c, other) && Respects(asset, c, d, own) && Apart(own, Held(other))
    requires own.Some? ==> own.value.name != asset.filename
    ensures PhaseInv(asset, d, other)
  {
  }

  // ---- Any number of fetchers ----

  datatype State = State(cache: Cache, phases: seq<Phase>)

  ghost predicate Inv(asset: Asset, s: State) {
    && CacheInv(asset, s.cache)
    && (forall i :: 0 <= i < |s.phases| ==> PhaseInv(asset, s.cache, s.phases[i]))
    && (forall i, j :: 0 <= i < j < |s.phases| ==> Apart(Held(s.phases[i]), Held(s.phases[j])))
  }

  ghost predicate StepOf(asset: Asset, s: State, t: State, i: nat) {
    && i < |s.phases| == |t.phases| && t.phases == s.phases[i := t.phases[i]]
    && Next(asset, s.cache, s.phases[i], t.cache, t.phases[i])
  }

  ghost predicate Step(asset: Asset, s: State, t: State) {
    exists i: nat :: StepOf(asset, s, t, i)
  }

  /** Once bound, the asset's name stays bound to the same, unchanged file. */
  ghost predicate StaysBound(asset: Asset, c: Cache, d: Cache) {
    asset.filename in c.names && c.names[asset.filename] in c.inodes ==>
      IsAsset(asset, d, c.names[asset.filename])
      && d.inodes[c.names[asset.filename]] == c.inodes[c.names[asset.filename]]
  }

  lemma FreshIsApart(asset: Asset, c: Cache, temp: Temp, other: Phase)
    requires PhaseInv(asset, c, other) && Fresh(c, temp)
    ensures Apart(Some(temp), Held(other)) && Apart(Held(other), Some(temp))
  {
  }

  lemma StepKeepsInv(asset: Asset, s: State, t: State, i: nat)
    requires Portable(asset) && Inv(asset, s) && StepOf(asset, s, t, i)
    ensures Inv(asset, t) && StaysBound(asset, s.cache, t.cache)
  {
    var p, q := s.phases[i], t.phases[i];
    OwnStepKeeps(asset, s.cache, p, t.cache, q);
    forall j | 0 <= j < |t.phases| && j != i
      ensures PhaseInv(asset, t.cache, t.phases[j]) && Apart(Held(q), Held(t.phases[j]))
    {
      assert t.phases[j] == s.phases[j];
      assert Apart(Held(p), Held(s.phases[j])) by {
        if j < i {
          assert Apart(Held(s.phases[j]), Held(s.phases[i]));
        }
      }
      OthersAreUndisturbed(asset, s.cache, t.cache, Held(p), s.phases[j]);
      if Held(q).Some? && Held(q) != Held(p) {
        FreshIsApart(asset, s.cache, Held(q).value, s.phases[j]);
      }
    }
    forall j, k | 0 <= j < k < |t.phases| ensures Apart(Held(t.phases[j]), Held(t.phases[k])) {
      if j != i && k != i {
        assert Apart(Held(s.phases[j]), Held(s.phases[k]));
      }
    }
  }

  /** The cache before any fetcher runs: the asset is absent or already good. */
  ghost predicate Start(asset: Asset, s: State) {
    CacheInv(asset, s.cache) && forall i :: 0 <= i < |s.phases| ==> s.phases[i] == Opening(First)
  }

  ghost predicate StepAt(asset: Asset, run: seq<State>, k: nat) {
    0 < k < |run| && Step(asset, run[k - 1], run[k])
  }

  ghost predicate Run(asset: Asset, run: seq<State>) {
    run != [] && Start(asset, run[0]) && forall k :: 0 < k < |run| ==> StepAt(asset, run, k)
  }

  lemma {:induction false} RunKeepsInv(asset: Asset, run: seq<State>, k: nat)
    requires Portable(asset) && Run(asset, run) && k < |run|
    ensures Inv(asset, run[k])
  {
    if k > 0 {
      RunKeepsInv(asset, run, k - 1);
      assert StepAt(asset, run, k);
      var i: nat :| StepOf(asset, run[k - 1], run[k], i);
      StepKeepsInv(asset, run[k - 1], run[k], i);
    }
  }

  /** However many fetchers run, fail and crash: the asset's name only ever
      means the locked bytes, and what it means never changes. */
  lemma {:induction false} NameIsNeverWrongNorRebound(asset: Asset, run: seq<State>, j: nat, k: nat)
    requires Portable(asset) && Run(asset, run) && j <= k < |run| && asset.filename in run[j].cache.names
    ensures var inode := run[j].cache.names[asset.filename];
            && IsAsset(asset, run[j].cache, inode) && IsAsset(asset, run[k].cache, inode)
            && run[k].cache.inodes[inode] == run[j].cache.inodes[inode] && Locked(asset, run[k].cache.inodes[inode])
    decreases k
  {
    RunKeepsInv(asset, run, j);
    if j < k {
      NameIsNeverWrongNorRebound(asset, run, j, k - 1);
      RunKeepsInv(asset, run, k - 1);
      assert StepAt(asset, run, k);
      var i: nat :| StepOf(asset, run[k - 1], run[k], i);
      StepKeepsInv(asset, run[k - 1], run[k], i);
    }
  }

  /** A fetcher returns only by a verification that has just read every byte of
      the file the asset's name means. */
  lemma ReturnFollowsVerification(asset: Asset, run: seq<State>, k: nat, i: nat)
    requires Portable(asset) && Run(asset, run) && 0 < k < |run| && i < |run[k].phases| == |run[k - 1].phases|
    requires run[k].phases[i].Returned? && !run[k - 1].phases[i].Returned?
    ensures var p := run[k - 1].phases[i];
            && p.Verifying? && run[k].phases[i].inode == p.inode && IsAsset(asset, run[k].cache, p.inode)
            && p.read == run[k].cache.inodes[p.inode] && Locked(asset, p.read)
  {
    RunKeepsInv(asset, run, k - 1);
    assert StepAt(asset, run, k);
    var m: nat :| StepOf(asset, run[k - 1], run[k], m);
    var p := run[k - 1].phases[i];
    assert m == i;
    assert Reads(asset, run[k - 1].cache, p, run[k].cache, run[k].phases[i]);
    assert p.read == run[k - 1].cache.inodes[p.inode][..|p.read|];
  }

  /** Nor does the concurrency raise false alarms: a verification that gets to
      the end of the file always passes. */
  lemma VerificationNeverMisfires(asset: Asset, run: seq<State>, k: nat, i: nat)
    requires Portable(asset) && Run(asset, run) && k < |run| && i < |run[k].phases|
    requires run[k].phases[i].Verifying? && run[k].phases[i].inode in run[k].cache.inodes
    requires |run[k].phases[i].read| == |run[k].cache.inodes[run[k].phases[i].inode]|
    ensures Verified(asset, run[k].cache, run[k].phases[i])
  {
    RunKeepsInv(asset, run, k);
    var p := run[k].phases[i];
    assert PhaseInv(asset, run[k].cache, p);
    assert p.read == run[k].cache.inodes[p.inode];
  }

  // ---- A fetcher that is left alone ----

  function Last(run: seq<State>): State
    requires run != []
  {
    run[|run| - 1]
  }

  ghost predicate Leads(asset: Asset, path: seq<State>, s: State, t: State) {
    path != [] && path[0] == s && Last(path) == t && forall k :: 0 < k < |path| ==> StepAt(asset, path, k)
  }

  ghost predicate CanReach(asset: Asset, s: State, t: State) {
    exists path :: Leads(asset, path, s, t)
  }

  lemma PathsJoin(asset: Asset, first: seq<State>, s: State, t: State, second: seq<State>, u: State)
    requires Leads(asset, first, s, t) && Leads(asset, second, t, u)
    ensures Leads(asset, first + second[1..], s, u)
  {
    var path := first + second[1..];
    forall k | 0 < k < |path| ensures StepAt(asset, path, k) {
      if k < |first| {
        assert StepAt(asset, first, k);
      } else {
        assert StepAt(asset, second, k - |first| + 1);
        assert path[k - 1] == second[k - |first|] && path[k] == second[k - |first| + 1];
      }
    }
  }

  lemma ReachOn(asset: Asset, s: State, t: State, u: State)
    requires CanReach(asset, s, t) && CanReach(asset, t, u)
    ensures CanReach(asset, s, u)
  {
    var first :| Leads(asset, first, s, t);
    var second :| Leads(asset, second, t, u);
    PathsJoin(asset, first, s, t, second, u);
  }

  lemma ReachedStateIsSound(asset: Asset, start: State, s: State)
    requires Portable(asset) && Start(asset, start) && CanReach(asset, start, s)
    ensures Inv(asset, s)
  {
    var run :| Leads(asset, run, start, s);
    RunKeepsInv(asset, run, |run| - 1);
  }

  /** The state in which fetcher i alone has come on. */
  function Put(s: State, i: nat, c: Cache, p: Phase): State
    requires i < |s.phases|
  {
    State(c, s.phases[i := p])
  }

  /** One more step of fetcher i. */
  lemma Then(asset: Asset, s: State, i: nat, c: Cache, p: Phase, d: Cache, q: Phase)
    requires i < |s.phases| && CanReach(asset, s, Put(s, i, c, p)) && Next(asset, c, p, d, q)
    ensures CanReach(asset, s, Put(s, i, d, q))
  {
    var t, u := Put(s, i, c, p), Put(s, i, d, q);
    var path :| Leads(asset, path, s, t);
    assert StepOf(asset, t, u, i);
    assert StepAt(asset, [t, u], 1);
    PathsJoin(asset, path, s, t, [t, u], u);
  }

  // ---- Where every fetcher can still get to ----

  /** The name is bound by the time these phases are reached. */
  predicate Named(asset: Asset, c: Cache, p: Phase) {
    (p.Opening? && !p.goal.First?) || (p.Checking? && !p.cleanup) || (p.Removing? && !p.cleanup) ==> asset.filename in c.names
  }

  lemma StepKeepsNamed(asset: Asset, c: Cache, p: Phase, d: Cache, q: Phase)
    requires Next(asset, c, p, d, q) && PhaseInv(asset, c, p) && Named(asset, c, p)
    ensures Named(asset, d, q)
  {
  }

  lemma {:induction false} RunKeepsNamed(asset: Asset, run: seq<State>, k: nat, i: nat)
    requires Portable(asset) && Run(asset, run) && k < |run| && i < |run[k].phases|
    ensures Named(asset, run[k].cache, run[k].phases[i])
  {
    if k > 0 {
      RunKeepsInv(asset, run, k - 1);
      assert StepAt(asset, run, k);
      var m: nat :| StepOf(asset, run[k - 1], run[k], m);
      RunKeepsNamed(asset, run, k - 1, i);
      if m == i {
        StepKeepsNamed(asset, run[k - 1].cache, run[k - 1].phases[i], run[k].cache, run[k].phases[i]);
      } else {
        StepKeepsInv(asset, run[k - 1], run[k], m);
      }
    }
  }

  /** A state that is reached from a start. */
  ghost predicate Reached(asset: Asset, start: State, s: State) {
    Portable(asset) && Start(asset, start) && CanReach(asset, start, s)
  }

  lemma ReachedIsNamed(asset: Asset, start: State, s: State, i: nat)
    requires Reached(asset, start, s) && i < |s.phases|
    ensures Named(asset, s.cache, s.phases[i])
  {
    var run :| Leads(asset, run, start, s);
    RunKeepsNamed(asset, run, |run| - 1, i);
  }

  /** Fetcher i has come, by its own steps, to the given cache and phase. */
  ghost predicate Comes(asset: Asset, start: State, s: State, i: nat, c: Cache, p: Phase) {
    Reached(asset, start, s) && i < |s.phases| && CanReach(asset, s, Put(s, i, c, p))
  }

  lemma ComesSoundly(asset: Asset, start: State, s: State, i: nat, c: Cache, p: Phase)
    requires Comes(asset, start, s, i, c, p)
    ensures CacheInv(asset, c) && PhaseInv(asset, c, p) && Named(asset, c, p)
  {
    var t := Put(s, i, c, p);
    ReachOn(asset, start, s, t);
    ReachedStateIsSound(asset, start, t);
    ReachedIsNamed(asset, start, t, i);
    assert PhaseInv(asset, t.cache, t.phases[i]);
  }

  /** Reads the rest of the bound file and finds it good. */
  lemma VerifiesOnward(asset: Asset, start: State, s: State, i: nat, c: Cache, p: Phase)
    requires Comes(asset, start, s, i, c, p) && p.Verifying?
    ensures Comes(asset, start, s, i, c, AfterVerifying(p)) && IsAsset(asset, c, p.inode)
  {
    ComesSoundly(asset, start, s, i, c, p);
    var content := c.inodes[p.inode];
    var q := p.(read := content);
    if |p.read| < |content| {
      assert p.read + content[|p.read|..|content|] == content;
      assert Reads(asset, c, p, c, q);
      Then(asset, s, i, c, p, c, q);
    } else {
      assert p.read == content;
    }
    Then(asset, s, i, c, q, c, AfterVerifying(p));
  }

  lemma OpensOnward(asset: Asset, start: State, s: State, i: nat, c: Cache, goal: Goal)
    requires Comes(asset, start, s, i, c, Opening(goal)) && asset.filename in c.names
    ensures goal.Taken? ==> Comes(asset, start, s, i, c, Checking(goal.temp, false))
    ensures !goal.Taken? ==> Comes(asset, start, s, i, c, Returned(c.names[asset.filename]))
  {
    var p := Verifying(goal, c.names[asset.filename], []);
    Then(asset, s, i, c, Opening(goal), c, p);
    VerifiesOnward(asset, start, s, i, c, p);
  }

  /** Removes the temporary name, and verifies once more before it returns. */
  lemma RemovesOnward(asset: Asset, start: State, s: State, i: nat, c: Cache, p: Phase) returns (end: Cache)
    requires Comes(asset, start, s, i, c, p) && (p.Checking? || p.Removing?) && !p.cleanup
    ensures asset.filename in c.names && end == c.(names := c.names - {p.temp.name})
    ensures Comes(asset, start, s, i, end, Returned(c.names[asset.filename]))
  {
    ComesSoundly(asset, start, s, i, c, p);
    if p.Checking? {
      Then(asset, s, i, c, p, c, Removing(p.temp, false));
    }
    end := c.(names := c.names - {p.temp.name});
    Then(asset, s, i, c, Removing(p.temp, false), end, Opening(Final));
    OpensOnward(asset, start, s, i, end, Final);
  }

  /** Links, or finds the name taken and verifies what the winner bound. */
  lemma LinksOnward(asset: Asset, start: State, s: State, i: nat, c: Cache, temp: Temp) returns (end: Cache, inode: Inode)
    requires Comes(asset, start, s, i, c, Linking(temp))
    ensures Comes(asset, start, s, i, end, Returned(inode))
    ensures inode == if asset.filename in c.names then c.names[asset.filename] else temp.inode
    ensures end == c.(names := (c.names - {temp.name})[asset.filename := inode])
  {
    ComesSoundly(asset, start, s, i, c, Linking(temp));
    if asset.filename in c.names {
      inode := c.names[asset.filename];
      Then(asset, s, i, c, Linking(temp), c, Opening(Taken(temp)));
      OpensOnward(asset, start, s, i, c, Taken(temp));
      end := RemovesOnward(asset, start, s, i, c, Checking(temp, false));
    } else {
      inode := temp.inode;
      var d := c.(names := c.names[asset.filename := inode]);
      Then(asset, s, i, c, Linking(temp), d, Checking(temp, false));
      end := RemovesOnward(asset, start, s, i, d, Checking(temp, false));
    }
  }

  /** The cache with the temporary file holding the given bytes. */
  function Filled(c: Cache, temp: Temp, content: Bytes): Cache {
    c.(inodes := c.inodes[temp.inode := content])
  }

  lemma WholeWrite(asset: Asset, c: Cache, temp: Temp, pending: Bytes, received: Bytes)
    requires temp.inode in c.inodes && c.inodes[temp.inode] + pending == received && pending != []
    ensures Writes(asset, c, Downloading(temp, pending, received), Filled(c, temp, received), Downloading(temp, [], received))
  {
    assert pending[..|pending|] == pending && pending[|pending|..] == [];
  }

  lemma WritesOnward(asset: Asset, start: State, s: State, i: nat, c: Cache, temp: Temp, pending: Bytes, received: Bytes)
    requires Comes(asset, start, s, i, c, Downloading(temp, pending, received))
    ensures Comes(asset, start, s, i, Filled(c, temp, received), Downloading(temp, [], received))
  {
    var p, d, q := Downloading(temp, pending, received), Filled(c, temp, received), Downloading(temp, [], received);
    ComesSoundly(asset, start, s, i, c, p);
    if pending == [] {
      assert c.inodes[temp.inode] + pending == c.inodes[temp.inode];
      assert d == c;
    } else {
      WholeWrite(asset, c, temp, pending, received);
      Then(asset, s, i, c, p, d, q);
    }
  }

  /** Stores the rest of the response, and goes on to link. */
  lemma DownloadsOnward(asset: Asset, start: State, s: State, i: nat, c: Cache, p: Phase, content: Bytes)
    requires Comes(asset, start, s, i, c, p) && p.Downloading? && p.received <= content && Locked(asset, content)
    ensures Comes(asset, start, s, i, Filled(c, p.temp, content), Linking(p.temp))
  {
    var temp, received := p.temp, p.received;
    WritesOnward(asset, start, s, i, c, temp, p.pending, received);
    var d := Filled(c, temp, received);
    if received != content {
      var rest := content[|received|..];
      assert received + rest == content;
      assert Receives(asset, d, Downloading(temp, [], received), d, Downloading(temp, rest, content));
      Then(asset, s, i, d, Downloading(temp, [], received), d, Downloading(temp, rest, content));
      WritesOnward(asset, start, s, i, d, temp, rest, content);
      assert Filled(d, temp, content) == Filled(c, temp, content);
    }
    var e := Filled(c, temp, content);
    Then(asset, s, i, e, Downloading(temp, [], content), e, Syncing(temp));
    Then(asset, s, i, e, Syncing(temp), e, Linking(temp));
  }

  lemma SyncsOnward(asset: Asset, start: State, s: State, i: nat, c: Cache, temp: Temp)
    requires Comes(asset, start, s, i, c, Syncing(temp))
    ensures Comes(asset, start, s, i, c, Linking(temp))
  {
    ComesSoundly(asset, start, s, i, c, Syncing(temp));
    Then(asset, s, i, c, Syncing(temp), c, Linking(temp));
  }

  /** A fetcher that has neither ended nor started to clean up after a failure. */
  predicate OnTheWay(p: Phase) {
    !Done(p) && !(p.Checking? && p.cleanup) && !(p.Removing? && p.cleanup)
  }

  /** The names without the fetcher's temporary one, and the asset's bound. */
  function FinalNames(asset: Asset, names: map<string, Inode>, held: Option<Temp>, inode: Inode): map<string, Inode> {
    (if held.Some? then names - {held.value.name} else names)[asset.filename := inode]
  }

  lemma StaysPut(asset: Asset, start: State, s: State, i: nat)
    requires Reached(asset, start, s) && i < |s.phases|
    ensures Comes(asset, start, s, i, s.cache, s.phases[i])
  {
    assert Put(s, i, s.cache, s.phases[i]) == s && Leads(asset, [s], s, s);
  }

  /** The first half of the way: up to the link. */
  lemma CanComeToLink(asset: Asset, start: State, s: State, i: nat, temp: Temp, content: Bytes) returns (c: Cache, own: Temp)
    requires Reached(asset, start, s) && i < |s.phases| && Locked(asset, content)
    requires s.phases[i].Creating? || s.phases[i].Downloading? || s.phases[i].Syncing?
             || (s.phases[i] == Opening(First) && asset.filename !in s.cache.names)
    requires s.phases[i].Downloading? ==> s.phases[i].received <= content
    requires Fresh(s.cache, temp) && IsTemporary(temp.name)
    ensures Comes(asset, start, s, i, c, Linking(own))
    ensures own == if Held(s.phases[i]).Some? then Held(s.phases[i]).value else temp
    ensures c.names == s.cache.names[own.name := own.inode]
  {
    StaysPut(asset, start, s, i);
    ComesSoundly(asset, start, s, i, s.cache, s.phases[i]);
    own, c := temp, s.cache;
    var p := s.phases[i];
    if p.Syncing? {
      own := p.temp;
      SyncsOnward(asset, start, s, i, c, own);
    } else {
      if p.Downloading? {
        own := p.temp;
      } else {
        if p.Opening? {
          Then(asset, s, i, c, p, c, Creating);
        }
        var d := Cache(c.names[temp.name := temp.inode], c.inodes[temp.inode := []]);
        Then(asset, s, i, c, Creating, d, Downloading(temp, [], []));
        c, p := d, Downloading(temp, [], []);
      }
      DownloadsOnward(asset, start, s, i, c, p, content);
      c := Filled(c, own, content);
    }
  }

  /** From any reachable state, a fetcher that is on its way can finish by its
      own steps alone: it returns the file that the name then means, which is
      the one that was bound already, or else its own download; its temporary
      name is gone, and no other name has changed. */
  lemma FetcherCanFinish(asset: Asset, start: State, s: State, i: nat, temp: Temp, content: Bytes)
    returns (end: Cache, inode: Inode)
    requires Reached(asset, start, s) && i < |s.phases| && OnTheWay(s.phases[i])
    requires Locked(asset, content) && (s.phases[i].Downloading? ==> s.phases[i].received <= content)
    requires Fresh(s.cache, temp) && IsTemporary(temp.name)
    ensures CanReach(asset, s, Put(s, i, end, Returned(inode)))
    ensures IsAsset(asset, end, inode) && Locked(asset, end.inodes[inode])
    ensures end.names == FinalNames(asset, s.cache.names, Held(s.phases[i]), inode)
    ensures asset.filename in s.cache.names ==> inode == s.cache.names[asset.filename]
  {
    StaysPut(asset, start, s, i);
    ComesSoundly(asset, start, s, i, s.cache, s.phases[i]);
    var p := s.phases[i];
    end := s.cache;
    if p.Checking? || p.Removing? {
      end := RemovesOnward(asset, start, s, i, end, p);
      inode := s.cache.names[asset.filename];
    } else if p.Linking? {
      end, inode := LinksOnward(asset, start, s, i, end, p.temp);
    } else if p.Verifying? || (p.Opening? && asset.filename in s.cache.names) {
      end, inode := VerifierCanFinish(asset, start, s, i);
    } else {
      var own;
      end, own := CanComeToLink(asset, start, s, i, temp, content);
      ComesSoundly(asset, start, s, i, end, Linking(own));
      end, inode := LinksOnward(asset, start, s, i, end, own);
    }
    ComesSoundly(asset, start, s, i, end, Returned(inode));
  }

  lemma VerifierCanFinish(asset: Asset, start: State, s: State, i: nat) returns (end: Cache, inode: Inode)
    requires Reached(asset, start, s) && i < |s.phases| && asset.filename in s.cache.names
    requires s.phases[i].Verifying? || s.phases[i].Opening?
    ensures Comes(asset, start, s, i, end, Returned(inode))
    ensures inode == s.cache.names[asset.filename]
    ensures end.names == FinalNames(asset, s.cache.names, Held(s.phases[i]), inode)
  {
    StaysPut(asset, start, s, i);
    ComesSoundly(asset, start, s, i, s.cache, s.phases[i]);
    var p := s.phases[i];
    end, inode := s.cache, s.cache.names[asset.filename];
    if p.Verifying? {
      VerifiesOnward(asset, start, s, i, end, p);
    } else {
      OpensOnward(asset, start, s, i, end, p.goal);
    }
    if p.goal.Taken? {
      end := RemovesOnward(asset, start, s, i, end, Checking(p.goal.temp, false));
    }
  }

  /** A lost race in particular: the fetcher that finds the name taken when it
      links returns the winner's file, and its own download is given up. */
  lemma LoserReturnsWinnersFile(asset: Asset, start: State, s: State, i: nat) returns (end: Cache)
    requires Reached(asset, start, s) && i < |s.phases| && s.phases[i].Linking? && asset.filename in s.cache.names
    ensures CanReach(asset, s, Put(s, i, end, Returned(s.cache.names[asset.filename])))
    ensures end == s.cache.(names := s.cache.names - {s.phases[i].temp.name})
    ensures s.cache.names[asset.filename] != s.phases[i].temp.inode
  {
    StaysPut(asset, start, s, i);
    ComesSoundly(asset, start, s, i, s.cache, s.phases[i]);
    var inode;
    end, inode := LinksOnward(asset, start, s, i, s.cache, s.phases[i].temp);
  }

  // ---- What every check guards, whatever the cache holds ----

  /** A fetcher that has read the whole file goes on exactly if the bytes are the
      locked ones and the name still means that file; otherwise it raises or dies.
      This needs no good cache to start from. */
  lemma ReadFileGoesOnIff(asset: Asset, c: Cache, p: Phase, d: Cache, q: Phase)
    requires p.Verifying? && p.inode in c.inodes && |p.read| == |c.inodes[p.inode]| && q != Raised(p) && q != Crashed
    ensures Next(asset, c, p, d, q) <==>
            && d == c && Locked(asset, p.read) && asset.filename in c.names && c.names[asset.filename] == p.inode
            && q == if p.goal.Taken? then Checking(p.goal.temp, false) else Returned(p.inode)
  {
  }

  lemma ReturnIsVerified(asset: Asset, c: Cache, p: Phase, d: Cache, q: Phase)
    requires Next(asset, c, p, d, q) && q.Returned?
    ensures p.Verifying? && q.inode == p.inode && p.inode in c.inodes && |p.read| == |c.inodes[p.inode]|
    ensures Locked(asset, p.read) && asset.filename in c.names && c.names[asset.filename] == p.inode
  {
  }

  /** Nor is anything downloaded while the name is bound, linked unless the
      locked bytes came and the file has their size, or removed under a name
      that means another file. */
  lemma DownloadIsGuarded(asset: Asset, c: Cache, p: Phase, d: Cache, q: Phase)
    requires Next(asset, c, p, d, q) && (q.Creating? || q.Syncing?)
    ensures q.Creating? ==> p == Opening(First) && asset.filename !in c.names
    ensures q.Syncing? ==> p.Downloading? && p.pending == [] && Locked(asset, p.received) && q.temp == p.temp
  {
  }

  lemma LinkIsGuarded(asset: Asset, c: Cache, p: Phase, d: Cache, q: Phase)
    requires Next(asset, c, p, d, q) && q.Linking?
    ensures p.Syncing? && q.temp == p.temp && p.temp.inode in c.inodes && |c.inodes[p.temp.inode]| == asset.size
  {
  }

  lemma RemovalIsGuarded(asset: Asset, c: Cache, p: Phase, d: Cache, q: Phase)
    requires Next(asset, c, p, d, q) && q.Removing?
    ensures p.Checking? && q.temp == p.temp && q.cleanup == p.cleanup && p.temp.name in c.names && c.names[p.temp.name] == p.temp.inode
  {
  }

  // ---- Failing ----

  /** Any call of a fetcher that has not ended may raise, and the process may die. */
  lemma AnyCallMayFail(asset: Asset, s: State, i: nat)
    requires i < |s.phases| && !Done(s.phases[i])
    ensures StepOf(asset, s, Put(s, i, s.cache, Raised(s.phases[i])), i) && StepOf(asset, s, Put(s, i, s.cache, Crashed), i)
  {
  }

  /** A fetcher that fails has no temporary of its own, or was cleaning it up. */
  lemma FailureFollowsCleanup(asset: Asset, run: seq<State>, k: nat, i: nat)
    requires Run(asset, run) && 0 < k < |run| && i < |run[k].phases| == |run[k - 1].phases|
    requires run[k].phases[i].Failed? && !run[k - 1].phases[i].Failed?
    ensures var p := run[k - 1].phases[i];
            Held(p).None? || ((p.Checking? || p.Removing?) && p.cleanup)
  {
    assert StepAt(asset, run, k);
    var m: nat :| StepOf(asset, run[k - 1], run[k], m);
    assert m == i;
  }

  /** And whatever it was doing, it can clean up: its temporary name goes, and
      nothing else changes. */
  lemma FailureCanCleanUp(asset: Asset, start: State, s: State, i: nat) returns (end: Cache)
    requires Reached(asset, start, s) && i < |s.phases| && !Done(s.phases[i])
    ensures CanReach(asset, s, Put(s, i, end, Failed))
    ensures end == if Held(s.phases[i]).Some? then s.cache.(names := s.cache.names - {Held(s.phases[i]).value.name}) else s.cache
  {
    StaysPut(asset, start, s, i);
    ComesSoundly(asset, start, s, i, s.cache, s.phases[i]);
    var p, c := s.phases[i], s.cache;
    end := c;
    if Held(p).None? {
      Then(asset, s, i, c, p, c, Failed);
    } else {
      var temp := Held(p).value;
      end := c.(names := c.names - {temp.name});
      if !(p.Removing? && p.cleanup) {
        if !(p.Checking? && p.cleanup) {
          Then(asset, s, i, c, p, c, Checking(temp, true));
        }
        Then(asset, s, i, c, Checking(temp, true), c, Removing(temp, true));
      }
      Then(asset, s, i, c, Removing(temp, true), end, Failed);
    }
  }
}
