/**
  The Fast Chain Engine commit protocol of src/fast_storage.rs. Every change to the directory is
  recorded as a snapshot, so "after a crash at any point" means "for every recorded snapshot".
 */
module FastStore {
  import opened Bytes
  import opened Outcome
  import opened Sorting
  import opened Merkle
  import opened Wire
  import opened HeaderChain
  import opened Difficulty
  import opened Journal

  /** The durable part of a chain state. */
  datatype Chain = Chain(blocks: seq<Block>, utxos: Utxos, mempool: seq<Transaction>)
  {
    function Height(): int { |blocks| - 1 }
    function Tip(): Block requires blocks != [] { blocks[|blocks| - 1] }
  }

  /** The fields a pointer and its state file must agree on. */
  datatype Meta = Meta(generation: nat, revision: nat, height: nat, tip: Hash, tipHeader: Header,
                       journalBytes: nat, mempoolDigest: Hash, work: nat)
  datatype StateName = StateName(generation: nat, revision: nat)
  datatype Pointer = Pointer(meta: Meta, blocksFile: nat, stateFile: StateName, stateSha: Hash)
  datatype State = State(meta: Meta, utxos: Utxos, mempool: seq<Transaction>)

  /** Hashing, encoding and the network's fixed points. */
  datatype Env = Env(h: Hasher, codec: Codec, sha: State -> Hash, digest: seq<Transaction> -> Hash,
                     genesis: Block, version: nat -> U32, checkpoint: Option<(nat, Hash)>, mainnet: bool)

  datatype Disk = Disk(current: Option<Pointer>, previous: Option<Pointer>,
                       journals: map<nat, seq<Byte>>, states: map<StateName, State>)

  datatype Policy = Normal | VerifiedEqualWorkReanchor

  /**
    How replacing one file goes (replace_file_atomic): at once; by moving the old file aside first;
    refused with the old file untouched; moved aside and put back; moved aside and not put back.
   */
  datatype Rename = Direct | Aside | Fails | Restored | Lost

  // ---- Loading -----------------------------------------------------------------------------

  /** read_state: present, with the recorded checksum and fields. */
  function ReadState(env: Env, d: Disk, p: Pointer): Result<State>
  {
    if p.stateFile !in d.states then Err
    else
      var s := d.states[p.stateFile];
      if env.sha(s) != p.stateSha || s.meta != p.meta || env.digest(s.mempool) != s.meta.mempoolDigest then Err else Ok(s)
  }

  predicate CheckpointOk(env: Env, blocks: seq<Block>)
  {
    env.checkpoint.Some? && env.checkpoint.value.0 < |blocks| ==>
      BlockHash(env.h, blocks[env.checkpoint.value.0]) == env.checkpoint.value.1
  }

  /** The checks read_blocks makes on the decoded blocks themselves. */
  predicate Structured(env: Env, blocks: seq<Block>)
  {
    && blocks != [] && blocks[0] == env.genesis
    && (forall i :: 0 <= i < |blocks| ==> blocks[i].header.version == env.version(i))
    && (forall i :: 1 <= i < |blocks| ==> blocks[i].header.prev == BlockHash(env.h, blocks[i - 1]))
    && CheckpointOk(env, blocks)
  }

  function ReadBlocks(env: Env, d: Disk, p: Pointer): Result<seq<Block>>
  {
    if p.blocksFile !in d.journals then Err
    else
      var file := d.journals[p.blocksFile];
      if |file| < p.meta.journalBytes then Err
      else
        var blocks :- ParseLines(env.codec, file[..p.meta.journalBytes]);
        if !Structured(env, blocks) || |blocks| != p.meta.height + 1 then Err
        else if BlockHash(env.h, blocks[|blocks| - 1]) != p.meta.tip || blocks[|blocks| - 1].header != p.meta.tipHeader then Err
        else Ok(blocks)
  }

  function LoadFrom(env: Env, d: Disk, p: Option<Pointer>): Result<Chain>
  {
    if p.None? then Err
    else
      var state :- ReadState(env, d, p.value);
      var blocks :- ReadBlocks(env, d, p.value);
      Ok(Chain(blocks, state.utxos, state.mempool))
  }

  /** load_fast_chain_once: CURRENT, or PREVIOUS when that commit is unusable. */
  function Load(env: Env, d: Disk): Result<Chain>
  {
    var fromCurrent := LoadFrom(env, d, d.current);
    if fromCurrent.Ok? then fromCurrent else LoadFrom(env, d, d.previous)
  }

  /** read_pointer_state_with_recovery: the same choice, on pointer and state only. */
  function ReadPointer(env: Env, d: Disk): Result<Pointer>
  {
    if d.current.Some? && ReadState(env, d, d.current.value).Ok? then Ok(d.current.value)
    else if d.previous.Some? && ReadState(env, d, d.previous.value).Ok? then Ok(d.previous.value)
    else Err
  }

  // ---- What a commit stores ----------------------------------------------------------------

  /** A chain the node hands to the engine: validated, so structured, linked and with decodable work. */
  ghost predicate Sound(env: Env, c: Chain, universe: set<seq<Byte>>)
  {
    && Structured(env, c.blocks) && Linked(env.h, c.blocks)
    && MessagesWithin(env.h, c.blocks, universe) && ChainWork(c.blocks).Ok?
  }

  lemma SoundHasWork(env: Env, c: Chain, universe: set<seq<Byte>>)
    requires Sound(env, c, universe)
    ensures c.blocks != [] && ChainWork(c.blocks).Ok?
  {
  }

  function MetaOf(env: Env, c: Chain, generation: nat, revision: nat): Meta
    requires c.blocks != [] && ChainWork(c.blocks).Ok?
  {
    Meta(generation, revision, |c.blocks| - 1, BlockHash(env.h, c.Tip()), c.Tip().header,
         |Lines(env.codec, c.blocks)|, env.digest(c.mempool), ChainWork(c.blocks).value)
  }

  function StateOf(c: Chain, m: Meta): State
  {
    State(m, c.utxos, c.mempool)
  }

  function PointerTo(env: Env, s: State): Pointer
  {
    Pointer(s.meta, s.meta.generation, StateName(s.meta.generation, s.meta.revision), env.sha(s))
  }

  ghost predicate HasJournal(env: Env, d: Disk, file: nat, blocks: seq<Block>)
  {
    file in d.journals && Lines(env.codec, blocks) <= d.journals[file]
  }

  /** Pointer p is the completed commit of chain c, and the directory still holds all of it. */
  ghost predicate Stored(env: Env, d: Disk, p: Pointer, c: Chain, universe: set<seq<Byte>>)
  {
    && Sound(env, c, universe)
    && var s := StateOf(c, MetaOf(env, c, p.meta.generation, p.meta.revision));
    && p == PointerTo(env, s)
    && p.stateFile in d.states && d.states[p.stateFile] == s
    && HasJournal(env, d, p.blocksFile, c.blocks)
  }

  predicate Earlier(a: Meta, b: Meta)
  {
    a.generation < b.generation
    || (a.generation == b.generation && a.revision < b.revision && a.journalBytes <= b.journalBytes)
  }

  /** The directory between any two steps; `committed` is what a reader gets, `backup` what PREVIOUS names. */
  ghost predicate Consistent(env: Env, d: Disk, committed: Option<Chain>, backup: Option<Chain>, universe: set<seq<Byte>>)
  {
    && (d.previous.Some? <==> backup.Some?)
    && (d.previous.Some? ==> Stored(env, d, d.previous.value, backup.value, universe))
    && (d.current.Some? ==> committed.Some? && Stored(env, d, d.current.value, committed.value, universe))
    && (d.current.None? ==> committed == backup)
    && (d.current.Some? && d.previous.Some? ==>
          (d.previous == d.current && backup == committed) || Earlier(d.previous.value.meta, d.current.value.meta))
  }

  lemma StoredLoads(env: Env, d: Disk, p: Pointer, c: Chain, universe: set<seq<Byte>>)
    requires env.codec.Faithful() && Stored(env, d, p, c, universe)
    ensures LoadFrom(env, d, Some(p)) == Ok(c) && ReadState(env, d, p).Ok?
  {
    var file, lines := d.journals[p.blocksFile], Lines(env.codec, c.blocks);
    assert file[..p.meta.journalBytes] == lines;
    ParseInvertsLines(env.codec, c.blocks);
  }

  /** Whatever a consistent directory has committed is what loading returns. */
  lemma ConsistentLoads(env: Env, d: Disk, committed: Option<Chain>, backup: Option<Chain>, universe: set<seq<Byte>>)
    requires env.codec.Faithful() && Consistent(env, d, committed, backup, universe)
    ensures Load(env, d) == match committed case Some(c) => Ok(c) case None => Err
    ensures ReadPointer(env, d) == if d.current.Some? then Ok(d.current.value) else if d.previous.Some? then Ok(d.previous.value) else Err
  {
    hide Stored, LoadFrom, ReadState;
    if d.current.Some? {
      StoredLoads(env, d, d.current.value, committed.value, universe);
    } else {
      NothingFromNothing(env, d);
    }
    if d.previous.Some? {
      StoredLoads(env, d, d.previous.value, backup.value, universe);
    } else {
      NothingFromNothing(env, d);
    }
  }

  /** A pointer whose state file is present, has the recorded checksum and fields, and the recorded digest of pending transactions. */
  predicate Readable(env: Env, d: Disk, p: Option<Pointer>)
  {
    && p.Some? && p.value.stateFile in d.states
    && var s := d.states[p.value.stateFile];
       env.sha(s) == p.value.stateSha && s.meta == p.value.meta && env.digest(s.mempool) == p.value.meta.mempoolDigest
  }

  /** Recovery on any directory: CURRENT when its state is readable, else PREVIOUS when its is, else nothing. */
  lemma RecoveryMeans(env: Env, d: Disk)
    ensures ReadPointer(env, d) ==
              if Readable(env, d, d.current) then Ok(d.current.value) else if Readable(env, d, d.previous) then Ok(d.previous.value) else Err
    ensures Load(env, d).Ok? ==> LoadFrom(env, d, d.current) == Load(env, d) || (LoadFrom(env, d, d.current).Err? && LoadFrom(env, d, d.previous) == Load(env, d))
    ensures LoadFrom(env, d, d.current).Ok? || LoadFrom(env, d, d.previous).Ok? ==> Load(env, d).Ok?
    ensures forall p :: LoadFrom(env, d, p).Ok? ==> Readable(env, d, p)
  {
    hide ReadBlocks;
  }

  // ---- Damaged files -----------------------------------------------------------------------

  /** The pointer a commit of this chain writes. */
  ghost predicate PointsTo(env: Env, p: Pointer, c: Chain)
  {
    && c.blocks != [] && ChainWork(c.blocks).Ok? && Structured(env, c.blocks)
    && p == PointerTo(env, StateOf(c, MetaOf(env, c, p.meta.generation, p.meta.revision)))
  }

  /**
    Whatever has become of the files, what loads through a pointer has the coins, the pending list and all
    headers of the chain it was written for, and it is that chain exactly if its merkle roots are right.
   */
  lemma DamageIsCaught(env: Env, p: Pointer, c: Chain, e: Disk, universe: set<seq<Byte>>)
    requires PointsTo(env, p, c) && InjectiveOn(env.h, universe) && LoadFrom(env, e, Some(p)).Ok?
    requires env.sha(e.states[p.stateFile]) == env.sha(StateOf(c, p.meta)) ==> e.states[p.stateFile] == StateOf(c, p.meta)
    requires forall b :: b in c.blocks || b in LoadFrom(env, e, Some(p)).value.blocks ==> SerializeHeader(b.header) in universe
    ensures var loaded := LoadFrom(env, e, Some(p)).value;
            && loaded.utxos == c.utxos && loaded.mempool == c.mempool && |loaded.blocks| == |c.blocks|
            && (forall i :: 0 <= i < |c.blocks| ==> loaded.blocks[i].header == c.blocks[i].header)
            && (Linked(env.h, c.blocks) && MessagesWithin(env.h, c.blocks, universe)
                && (Linked(env.h, loaded.blocks) ==> MessagesWithin(env.h, loaded.blocks, universe))
                ==> (Linked(env.h, loaded.blocks) <==> loaded == c))
  {
    hide ChainWork, Linked, MessagesWithin, InjectiveOn, BlockHash, SerializeHeader, Lines, ParseLines;
    var loaded := LoadFrom(env, e, Some(p)).value;
    TipDeterminesHeaders(env.h, loaded.blocks, c.blocks, universe);
    if Linked(env.h, c.blocks) && Linked(env.h, loaded.blocks) && MessagesWithin(env.h, c.blocks, universe)
       && MessagesWithin(env.h, loaded.blocks, universe) {
      TipDeterminesChain(env.h, loaded.blocks, c.blocks, universe);
    }
  }

  /** And headers are all that loading looks at: block bodies of the same encoded length, under the same headers, load as well. */
  lemma BodiesAreNotRead(env: Env, p: Pointer, c: Chain, e: Disk, bodies: seq<Block>)
    requires env.codec.Faithful() && PointsTo(env, p, c)
    requires |bodies| == |c.blocks| && bodies[0] == env.genesis && forall i :: 0 <= i < |bodies| ==> bodies[i].header == c.blocks[i].header
    requires |Lines(env.codec, bodies)| == |Lines(env.codec, c.blocks)|
    requires p.stateFile in e.states && e.states[p.stateFile] == StateOf(c, p.meta)
    requires p.blocksFile in e.journals && Lines(env.codec, bodies) <= e.journals[p.blocksFile]
    ensures LoadFrom(env, e, Some(p)) == Ok(Chain(bodies, c.utxos, c.mempool))
  {
    hide ChainWork, SerializeHeader, Lines, ParseLines;
    assert e.journals[p.blocksFile][..p.meta.journalBytes] == Lines(env.codec, bodies);
    ParseInvertsLines(env.codec, bodies);
  }

  lemma NothingFromNothing(env: Env, d: Disk)
    ensures LoadFrom(env, d, None) == Err
  {
  }

  /** With neither pointer readable nothing can be loaded, whatever else is on disk. */
  lemma NoPointerNoChain(env: Env, d: Disk)
    requires d.current.None? && d.previous.None?
    ensures Load(env, d) == Err
  {
  }

  // ---- Steps that keep a stored commit stored ----------------------------------------------

  lemma StoredFrame(env: Env, d: Disk, e: Disk, p: Pointer, c: Chain, universe: set<seq<Byte>>)
    requires Stored(env, d, p, c, universe)
    requires p.stateFile in e.states && e.states[p.stateFile] == d.states[p.stateFile]
    requires HasJournal(env, e, p.blocksFile, c.blocks)
    ensures Stored(env, e, p, c, universe)
  {
  }

  lemma StoredIgnoresPointers(env: Env, d: Disk, e: Disk, p: Pointer, c: Chain, universe: set<seq<Byte>>)
    requires Stored(env, d, p, c, universe) && e.journals == d.journals && e.states == d.states
    ensures Stored(env, e, p, c, universe)
  {
  }

  /** Pointers whose files are untouched, apart from journal bytes past their commit. */
  ghost predicate Untouched(d: Disk, e: Disk, p: Pointer)
  {
    && p.stateFile in d.states && p.stateFile in e.states && e.states[p.stateFile] == d.states[p.stateFile]
    && p.blocksFile in d.journals && p.blocksFile in e.journals
    && p.meta.journalBytes <= |d.journals[p.blocksFile]| && p.meta.journalBytes <= |e.journals[p.blocksFile]|
    && e.journals[p.blocksFile][..p.meta.journalBytes] == d.journals[p.blocksFile][..p.meta.journalBytes]
  }

  lemma UntouchedStaysStored(env: Env, d: Disk, e: Disk, p: Pointer, c: Chain, universe: set<seq<Byte>>)
    requires Stored(env, d, p, c, universe) && Untouched(d, e, p)
    ensures Stored(env, e, p, c, universe)
  {
    var lines := Lines(env.codec, c.blocks);
    assert e.journals[p.blocksFile][..p.meta.journalBytes] == lines;
    StoredFrame(env, d, e, p, c, universe);
  }

  /** A step that only touches files (or bytes) that no pointer names keeps the directory consistent. */
  lemma UntouchedStaysConsistent(env: Env, d: Disk, e: Disk, committed: Option<Chain>, backup: Option<Chain>, universe: set<seq<Byte>>)
    requires Consistent(env, d, committed, backup, universe)
    requires e.current == d.current && e.previous == d.previous
    requires d.current.Some? ==> Untouched(d, e, d.current.value)
    requires d.previous.Some? ==> Untouched(d, e, d.previous.value)
    ensures Consistent(env, e, committed, backup, universe)
  {
    hide Stored, Untouched;
    if d.current.Some? {
      UntouchedStaysStored(env, d, e, d.current.value, committed.value, universe);
    }
    if d.previous.Some? {
      UntouchedStaysStored(env, d, e, d.previous.value, backup.value, universe);
    }
  }

  // ---- The commit policy -------------------------------------------------------------------

  predicate EqualWorkSibling(env: Env, c: Chain, p: Pointer)
    requires c.blocks != [] && ChainWork(c.blocks).Ok?
  {
    env.mainnet && ChainWork(c.blocks).value == p.meta.work && c.Height() == p.meta.height
    && BlockHash(env.h, c.Tip()) != p.meta.tip
  }

  /** ensure_candidate_not_behind_committed. */
  predicate NotBehind(env: Env, c: Chain, p: Pointer, policy: Policy)
    requires c.blocks != [] && ChainWork(c.blocks).Ok?
  {
    var work := ChainWork(c.blocks).value;
    var sibling := EqualWorkSibling(env, c, p);
    var verified := policy == VerifiedEqualWorkReanchor && sibling;
    var stale := work < p.meta.work || (work == p.meta.work && c.Height() < p.meta.height) || (sibling && !verified);
    !stale && (policy == VerifiedEqualWorkReanchor ==> verified)
  }

  /** What the policy is for: (work, height) never goes down, and a mainnet tie changes the tip only when verified. */
  lemma NotBehindMeans(env: Env, c: Chain, p: Pointer, policy: Policy)
    requires c.blocks != [] && ChainWork(c.blocks).Ok?
    ensures NotBehind(env, c, p, policy) <==>
      var (work, tip) := (ChainWork(c.blocks).value, BlockHash(env.h, c.Tip()));
      if policy == Normal then
        work > p.meta.work || (work == p.meta.work && c.Height() >= p.meta.height
          && (env.mainnet && c.Height() == p.meta.height ==> tip == p.meta.tip))
      else env.mainnet && work == p.meta.work && c.Height() == p.meta.height && tip != p.meta.tip
  {
  }

  // ---- The directory -----------------------------------------------------------------------

  /**
    The environment's choices during one commit. `torn` is what an unsynchronised append may leave, `appended` whether
    the append is completed, `settled` whether everything after the pointers (cleanup, status file) reports success.
   */
  datatype IoPlan = IoPlan(torn: seq<Byte>, appended: bool, settled: bool, journal: Rename, state: Rename, previous: Rename, current: Rename,
                           stateListing: seq<StateName>, journalListing: seq<nat>,
                           stateAge: (StateName, StateName) -> bool, journalAge: (nat, nat) -> bool)

  /** Every pointer into this journal file committed at most this many bytes. */
  predicate CommittedWithin(d: Disk, file: nat, bytes: nat)
  {
    && (d.current.Some? && d.current.value.blocksFile == file ==> d.current.value.meta.journalBytes <= bytes)
    && (d.previous.Some? && d.previous.value.blocksFile == file ==> d.previous.value.meta.journalBytes <= bytes)
  }

  lemma KeptPrefix(was: seq<Byte>, content: seq<Byte>, keep: nat, n: nat)
    requires keep <= |was| && was[..keep] <= content
    ensures n <= keep ==> n <= |content| && content[..n] == was[..n]
  {
    if n <= keep {
      assert content[..keep] == was[..keep];
      assert content[..n] == content[..keep][..n] && was[..n] == was[..keep][..n];
    }
  }

  lemma StoredFiles(env: Env, d: Disk, p: Pointer, c: Chain, universe: set<seq<Byte>>)
    requires Stored(env, d, p, c, universe)
    ensures p.stateFile in d.states && p.blocksFile in d.journals && p.meta.journalBytes <= |d.journals[p.blocksFile]|
    ensures p.blocksFile == p.meta.generation && p.stateFile == StateName(p.meta.generation, p.meta.revision)
  {
  }

  /** Bytes of a journal past every commit can be cut, written or torn freely. */
  lemma JournalSuffixIsFree(env: Env, d: Disk, file: nat, keep: nat, content: seq<Byte>,
                            committed: Option<Chain>, backup: Option<Chain>, universe: set<seq<Byte>>)
    requires Consistent(env, d, committed, backup, universe)
    requires file in d.journals && keep <= |d.journals[file]| && CommittedWithin(d, file, keep)
    requires d.journals[file][..keep] <= content
    ensures Consistent(env, d.(journals := d.journals[file := content]), committed, backup, universe)
  {
    hide Stored;
    var e := d.(journals := d.journals[file := content]);
    if d.current.Some? {
      StoredFiles(env, d, d.current.value, committed.value, universe);
      KeptPrefix(d.journals[file], content, keep, d.current.value.meta.journalBytes);
    }
    if d.previous.Some? {
      StoredFiles(env, d, d.previous.value, backup.value, universe);
      KeptPrefix(d.journals[file], content, keep, d.previous.value.meta.journalBytes);
    }
    UntouchedStaysConsistent(env, d, e, committed, backup, universe);
  }

  /** Neither pointer names the journal file or the state file. */
  predicate JournalUnnamed(d: Disk, file: nat)
  {
    && (d.current.Some? ==> d.current.value.blocksFile != file)
    && (d.previous.Some? ==> d.previous.value.blocksFile != file)
  }

  predicate StateUnnamed(d: Disk, name: StateName)
  {
    && (d.current.Some? ==> d.current.value.stateFile != name)
    && (d.previous.Some? ==> d.previous.value.stateFile != name)
  }

  /** Files that no pointer names can come, go and change. */
  lemma UnnamedIsFree(env: Env, d: Disk, e: Disk, committed: Option<Chain>, backup: Option<Chain>, universe: set<seq<Byte>>)
    requires Consistent(env, d, committed, backup, universe)
    requires e.current == d.current && e.previous == d.previous
    requires forall f :: f in d.journals && !JournalUnnamed(d, f) ==> f in e.journals && e.journals[f] == d.journals[f]
    requires forall n :: n in d.states && !StateUnnamed(d, n) ==> n in e.states && e.states[n] == d.states[n]
    ensures Consistent(env, e, committed, backup, universe)
  {
    hide Stored;
    if d.current.Some? {
      StoredFiles(env, d, d.current.value, committed.value, universe);
    }
    if d.previous.Some? {
      StoredFiles(env, d, d.previous.value, backup.value, universe);
    }
    UntouchedStaysConsistent(env, d, e, committed, backup, universe);
  }

  type Outcomes = set<Option<Chain>>

  /** A snapshot from which a restart finds one of the allowed chains. */
  ghost predicate Survives(env: Env, universe: set<seq<Byte>>, d: Disk, allowed: Outcomes)
  {
    exists c, b :: c in allowed && Consistent(env, d, c, b, universe)
  }

  ghost predicate AllSurvive(env: Env, universe: set<seq<Byte>>, trace: seq<Disk>, from: nat, allowed: Outcomes)
  {
    from <= |trace| && forall i :: from <= i < |trace| ==> Survives(env, universe, trace[i], allowed)
  }

  lemma OneMoreSurvives(env: Env, universe: set<seq<Byte>>, trace: seq<Disk>, d: Disk, from: nat, allowed: Outcomes,
                        c: Option<Chain>, b: Option<Chain>)
    requires AllSurvive(env, universe, trace, from, allowed) && c in allowed && Consistent(env, d, c, b, universe)
    ensures AllSurvive(env, universe, trace + [d], from, allowed)
  {
    hide Consistent;
    assert Survives(env, universe, d, allowed);
  }

  /** Surviving means that loading the snapshot returns exactly one of the allowed chains. */
  lemma SurvivingLoads(env: Env, universe: set<seq<Byte>>, d: Disk, allowed: Outcomes)
    requires env.codec.Faithful() && Survives(env, universe, d, allowed)
    ensures exists c :: c in allowed && Load(env, d) == AsLoaded(c)
  {
    hide Consistent, Load;
    var c, b :| c in allowed && Consistent(env, d, c, b, universe);
    ConsistentLoads(env, d, c, b, universe);
  }

  function AsLoaded(c: Option<Chain>): Result<Chain>
  {
    match c case Some(chain) => Ok(chain) case None => Err
  }

  lemma PrefixWithin(h: Hasher, blocks: seq<Block>, n: nat, universe: set<seq<Byte>>)
    requires Linked(h, blocks) && MessagesWithin(h, blocks, universe) && n <= |blocks|
    ensures Linked(h, blocks[..n]) && MessagesWithin(h, blocks[..n], universe)
  {
  }

  /** A candidate whose block at the committed height has the committed tip hash extends the committed chain. */
  lemma CandidateExtends(env: Env, d: Disk, p: Pointer, c0: Chain, c1: Chain, universe: set<seq<Byte>>)
    requires InjectiveOn(env.h, universe) && Stored(env, d, p, c0, universe) && Sound(env, c1, universe)
    requires p.meta.height < |c1.blocks| && BlockHash(env.h, c1.blocks[p.meta.height]) == p.meta.tip
    ensures p.meta.height + 1 == |c0.blocks| && c1.blocks[..p.meta.height + 1] == c0.blocks
    ensures Lines(env.codec, c1.blocks) == Lines(env.codec, c0.blocks) + Lines(env.codec, c1.blocks[p.meta.height + 1..])
    ensures p.meta.journalBytes == |Lines(env.codec, c0.blocks)|
  {
    hide Linked, Structured, MessagesWithin, InjectiveOn, BlockHash, ChainWork, Lines;
    var head := c1.blocks[..p.meta.height + 1];
    PrefixWithin(env.h, c1.blocks, p.meta.height + 1, universe);
    LinkedPrefix(env.h, c1.blocks, p.meta.height + 1);
    TipDeterminesChain(env.h, head, c0.blocks, universe);
    LinesAppend(env.codec, head, c1.blocks[p.meta.height + 1..]);
    assert c1.blocks == head + c1.blocks[p.meta.height + 1..];
  }

  /** The first n of a listing, newest first. */
  function Newest<T>(listing: seq<T>, newer: (T, T) -> bool, n: nat): seq<T>
  {
    var sorted := Sort(listing, newer);
    if |sorted| <= n then sorted else sorted[..n]
  }

  /** Cleanup deletes exactly the listed files that no pointer names and that are not among the newest. */
  ghost predicate KeptStates(before: Disk, after: Disk, listed: seq<StateName>, newest: seq<StateName>)
  {
    forall n :: n in after.states <==> (n in before.states && (n !in listed || n in newest || !StateUnnamed(before, n)))
  }

  ghost predicate KeptJournals(before: Disk, after: Disk, listed: seq<nat>, newest: seq<nat>)
  {
    forall n :: n in after.journals <==> (n in before.journals && (n !in listed || n in newest || !JournalUnnamed(before, n)))
  }

  /** replace_file_atomic can lose its target only in these ways. */
  predicate MovesAside(how: Rename)
  {
    how == Aside || how == Restored || how == Lost
  }

  /** Whether replace_file_atomic succeeds, given whether its target exists. */
  predicate Replaced(how: Rename, exists_: bool)
  {
    how == Direct || (how == Aside && exists_)
  }

  /** No pointer names the files of this generation and revision as its state. */
  lemma LaterIsUnnamed(env: Env, d: Disk, p: Pointer, committed: Option<Chain>, backup: Option<Chain>, universe: set<seq<Byte>>, m: Meta)
    requires Consistent(env, d, committed, backup, universe)
    requires d.current == Some(p) || (d.current.None? && d.previous == Some(p))
    requires Earlier(p.meta, m)
    ensures StateUnnamed(d, StateName(m.generation, m.revision))
    ensures m.generation > p.meta.generation ==> JournalUnnamed(d, m.generation)
  {
  }

  /** A freshly written state file completes the commit of c. */
  lemma CompletesCommit(env: Env, d: Disk, c: Chain, m: Meta, universe: set<seq<Byte>>)
    requires Sound(env, c, universe) && m == MetaOf(env, c, m.generation, m.revision)
    requires HasJournal(env, d, m.generation, c.blocks)
    requires var name := StateName(m.generation, m.revision); name in d.states && d.states[name] == StateOf(c, m)
    ensures Stored(env, d, PointerTo(env, StateOf(c, m)), c, universe)
  {
  }

  class Directory {
    const env: Env
    var disk: Disk
    ghost const universe: set<seq<Byte>>
    ghost var committed: Option<Chain>
    ghost var backup: Option<Chain>
    var trace: seq<Disk>  // every directory content since the process started

    ghost predicate Valid()
      reads this
    {
      && env.codec.Faithful() && InjectiveOn(env.h, universe)
      && Consistent(env, disk, committed, backup, universe)
    }

    /** A directory as a starting process finds it. */
    constructor (env: Env, found: Disk, ghost committed: Option<Chain>, ghost backup: Option<Chain>, ghost universe: set<seq<Byte>>)
      requires env.codec.Faithful() && InjectiveOn(env.h, universe) && Consistent(env, found, committed, backup, universe)
      ensures Valid() && disk == found && this.committed == committed && this.backup == backup && trace == []
      ensures this.env == env && this.universe == universe
    {
      this.env, this.universe, disk := env, universe, found;
      trace := [];
      this.committed, this.backup := committed, backup;
    }

    /** append_journal: cut the file to its committed prefix, then write and synchronise the new lines. */
    method AppendJournal(file: nat, keep: nat, addition: seq<Byte>, torn: seq<Byte>, completed: bool, ghost allowed: Outcomes, ghost from: nat)
      requires Valid() && file in disk.journals && keep <= |disk.journals[file]| && CommittedWithin(disk, file, keep)
      requires AllSurvive(env, universe, trace, from, allowed) && committed in allowed
      modifies this`disk, this`trace
      ensures Valid() && AllSurvive(env, universe, trace, from, allowed) && old(trace) <= trace
      ensures disk == old(disk).(journals := old(disk).journals[file := old(disk).journals[file][..keep] + if completed then addition else torn])
    {
      hide Consistent;
      var kept := disk.journals[file][..keep];
      Truncate(file, keep, allowed, from);
      JournalSuffixIsFree(env, disk, file, keep, kept + torn, committed, backup, universe);
      Record(disk.(journals := disk.journals[file := kept + torn]), allowed, from);
      var content := kept + if completed then addition else torn;
      JournalSuffixIsFree(env, disk, file, keep, content, committed, backup, universe);
      disk := disk.(journals := disk.journals[file := content]);
      Record(disk, allowed, from);
      assert disk.journals == old(disk).journals[file := content];
    }

    /** set_len, only when there is something to cut. */
    method Truncate(file: nat, keep: nat, ghost allowed: Outcomes, ghost from: nat)
      requires Valid() && file in disk.journals && keep <= |disk.journals[file]| && CommittedWithin(disk, file, keep)
      requires AllSurvive(env, universe, trace, from, allowed) && committed in allowed
      modifies this`disk, this`trace
      ensures Valid() && AllSurvive(env, universe, trace, from, allowed) && old(trace) <= trace
      ensures disk == old(disk).(journals := old(disk).journals[file := old(disk).journals[file][..keep]])
      ensures CommittedWithin(disk, file, keep)
    {
      if |disk.journals[file]| > keep {
        JournalSuffixIsFree(env, disk, file, keep, disk.journals[file][..keep], committed, backup, universe);
        disk := disk.(journals := disk.journals[file := disk.journals[file][..keep]]);
        Record(disk, allowed, from);
      } else {
        assert disk.journals[file][..keep] == disk.journals[file];
        assert disk.journals == disk.journals[file := disk.journals[file]];
      }
    }

    /** A crash now (or with these unsynced bytes) would leave d. */
    method Record(d: Disk, ghost allowed: Outcomes, ghost from: nat)
      requires AllSurvive(env, universe, trace, from, allowed) && committed in allowed
      requires Consistent(env, d, committed, backup, universe)
      modifies this`trace
      ensures AllSurvive(env, universe, trace, from, allowed) && trace == old(trace) + [d]
    {
      hide Consistent;
      OneMoreSurvives(env, universe, trace, d, from, allowed, committed, backup);
      trace := trace + [d];
    }

    method SetJournal(file: nat, content: Option<seq<Byte>>, ghost allowed: Outcomes, ghost from: nat)
      requires Valid() && JournalUnnamed(disk, file)
      requires AllSurvive(env, universe, trace, from, allowed) && committed in allowed
      modifies this`disk, this`trace
      ensures Valid() && AllSurvive(env, universe, trace, from, allowed) && trace == old(trace) + [disk]
      ensures disk == old(disk).(journals := if content.Some? then old(disk).journals[file := content.value] else old(disk).journals - {file})
    {
      hide Consistent;
      var next := disk.(journals := if content.Some? then disk.journals[file := content.value] else disk.journals - {file});
      UnnamedIsFree(env, disk, next, committed, backup, universe);
      disk := next;
      Record(disk, allowed, from);
    }

    method SetState(name: StateName, content: Option<State>, ghost allowed: Outcomes, ghost from: nat)
      requires Valid() && StateUnnamed(disk, name)
      requires AllSurvive(env, universe, trace, from, allowed) && committed in allowed
      modifies this`disk, this`trace
      ensures Valid() && AllSurvive(env, universe, trace, from, allowed) && trace == old(trace) + [disk]
      ensures disk == old(disk).(states := if content.Some? then old(disk).states[name := content.value] else old(disk).states - {name})
    {
      hide Consistent;
      var next := disk.(states := if content.Some? then disk.states[name := content.value] else disk.states - {name});
      UnnamedIsFree(env, disk, next, committed, backup, universe);
      disk := next;
      Record(disk, allowed, from);
    }

    /** replace_file_atomic for a journal file that no pointer names. */
    method ReplaceJournal(file: nat, content: seq<Byte>, how: Rename, ghost allowed: Outcomes, ghost from: nat) returns (ok: bool)
      requires Valid() && JournalUnnamed(disk, file)
      requires AllSurvive(env, universe, trace, from, allowed) && committed in allowed
      modifies this`disk, this`trace
      ensures Valid() && AllSurvive(env, universe, trace, from, allowed) && old(trace) <= trace
      ensures disk.current == old(disk).current && disk.previous == old(disk).previous && disk.states == old(disk).states
      ensures ok ==> disk.journals == old(disk).journals[file := content]
      ensures ok <==> Replaced(how, file in old(disk).journals)
    {
      hide Consistent, AllSurvive;
      if how == Direct {
        SetJournal(file, Some(content), allowed, from);
        return true;
      }
      if how == Fails || file !in disk.journals {
        return false;
      }
      var was := disk.journals[file];
      SetJournal(file, None, allowed, from);
      if how == Aside {
        SetJournal(file, Some(content), allowed, from);
        assert disk.journals == old(disk).journals[file := content];
        return true;
      }
      if how == Restored {
        SetJournal(file, Some(was), allowed, from);
      }
      return false;
    }

    /** replace_file_atomic for a state file that no pointer names. */
    method ReplaceState(name: StateName, content: State, how: Rename, ghost allowed: Outcomes, ghost from: nat) returns (ok: bool)
      requires Valid() && StateUnnamed(disk, name)
      requires AllSurvive(env, universe, trace, from, allowed) && committed in allowed
      modifies this`disk, this`trace
      ensures Valid() && AllSurvive(env, universe, trace, from, allowed) && old(trace) <= trace
      ensures disk.current == old(disk).current && disk.previous == old(disk).previous && disk.journals == old(disk).journals
      ensures ok ==> disk.states == old(disk).states[name := content]
      ensures ok <==> Replaced(how, name in old(disk).states)
    {
      hide Consistent, AllSurvive;
      if how == Direct {
        SetState(name, Some(content), allowed, from);
        return true;
      }
      if how == Fails || name !in disk.states {
        return false;
      }
      var was := disk.states[name];
      SetState(name, None, allowed, from);
      if how == Aside {
        SetState(name, Some(content), allowed, from);
        assert disk.states == old(disk).states[name := content];
        return true;
      }
      if how == Restored {
        SetState(name, Some(was), allowed, from);
      }
      return false;
    }

    /** Point PREVIOUS at p (the commit of chain c), or take it away. */
    method SetPrevious(p: Option<Pointer>, ghost c: Option<Chain>, ghost allowed: Outcomes, ghost from: nat)
      requires Valid() && AllSurvive(env, universe, trace, from, allowed) && committed in allowed
      requires p.Some? <==> c.Some?
      requires p.Some? ==> Stored(env, disk, p.value, c.value, universe)
      requires disk.current.None? ==> c in allowed
      requires p.Some? && disk.current.Some? ==>
        (disk.current == p && committed == c) || Earlier(p.value.meta, disk.current.value.meta)
      modifies this`disk, this`committed, this`backup, this`trace
      ensures Valid() && AllSurvive(env, universe, trace, from, allowed) && committed in allowed && trace == old(trace) + [disk]
      ensures disk == old(disk).(previous := p) && backup == c
      ensures committed == if disk.current.None? then c else old(committed)
    {
      var next := disk.(previous := p);
      if p.Some? {
        StoredIgnoresPointers(env, disk, next, p.value, c.value, universe);
      }
      if disk.current.Some? {
        StoredIgnoresPointers(env, disk, next, disk.current.value, committed.value, universe);
      } else {
        committed := c;
      }
      backup := c;
      disk := next;
      Record(disk, allowed, from);
    }

    /** Point CURRENT at p (the commit of chain c), or take it away. */
    method SetCurrent(p: Option<Pointer>, ghost c: Option<Chain>, ghost allowed: Outcomes, ghost from: nat)
      requires Valid() && AllSurvive(env, universe, trace, from, allowed) && committed in allowed
      requires p.Some? <==> c.Some?
      requires p.Some? ==> c in allowed && Stored(env, disk, p.value, c.value, universe)
      requires p.Some? && disk.previous.Some? ==>
        (disk.previous == p && backup == c) || Earlier(disk.previous.value.meta, p.value.meta)
      requires p.None? ==> committed == backup
      modifies this`disk, this`committed, this`trace
      ensures Valid() && AllSurvive(env, universe, trace, from, allowed) && committed in allowed && trace == old(trace) + [disk]
      ensures disk == old(disk).(current := p)
      ensures committed == if p.Some? then c else old(committed)
    {
      var next := disk.(current := p);
      if p.Some? {
        committed := c;
        StoredIgnoresPointers(env, disk, next, p.value, c.value, universe);
      }
      if disk.previous.Some? {
        StoredIgnoresPointers(env, disk, next, disk.previous.value, backup.value, universe);
      }
      disk := next;
      Record(disk, allowed, from);
    }

    /** replace_file_atomic on PREVIOUS: it will name the pointer the writer started from. */
    method ReplacePrevious(p: Pointer, ghost c: Chain, how: Rename, ghost allowed: Outcomes, ghost from: nat) returns (ok: bool)
      requires Valid() && AllSurvive(env, universe, trace, from, allowed) && committed in allowed
      requires Stored(env, disk, p, c, universe) && committed == Some(c)
      requires disk.current == Some(p) || (disk.current.None? && disk.previous == Some(p))
      requires disk.current.None? && how != Direct && how != Fails ==> None in allowed
      modifies this`disk, this`committed, this`backup, this`trace
      ensures Valid() && AllSurvive(env, universe, trace, from, allowed) && committed in allowed && old(trace) <= trace
      ensures ok <==> Replaced(how, old(disk.previous).Some?)
      ensures disk == old(disk).(previous := if ok then Some(p) else if how == Lost then None else old(disk.previous))
      ensures ok ==> committed == backup == Some(c)
      ensures disk.current.Some? ==> committed == old(committed)
      ensures disk.current.None? && (how == Direct || how == Fails) ==> committed == old(committed)
      ensures old(disk.previous).Some? && how != Direct && how != Fails ==>
        |trace| > |old(trace)| && trace[|old(trace)|] == old(disk).(previous := None)
    {
      hide Stored, AllSurvive, Earlier;
      if how == Direct {
        SetPrevious(Some(p), Some(c), allowed, from);
        return true;
      }
      if how == Fails || disk.previous.None? {
        return false;
      }
      ok := MovePreviousAside(p, c, how, allowed, from);
    }

    method MovePreviousAside(p: Pointer, ghost c: Chain, how: Rename, ghost allowed: Outcomes, ghost from: nat) returns (ok: bool)
      requires Valid() && AllSurvive(env, universe, trace, from, allowed) && committed in allowed
      requires Stored(env, disk, p, c, universe) && committed == Some(c)
      requires disk.current == Some(p) || (disk.current.None? && disk.previous == Some(p))
      requires how != Direct && how != Fails && disk.previous.Some?
      requires disk.current.None? ==> None in allowed
      modifies this`disk, this`committed, this`backup, this`trace
      ensures Valid() && AllSurvive(env, universe, trace, from, allowed) && committed in allowed && old(trace) <= trace
      ensures ok <==> how == Aside
      ensures disk == old(disk).(previous := if ok then Some(p) else if how == Lost then None else old(disk.previous))
      ensures ok ==> committed == backup == Some(c)
      ensures disk.current.Some? ==> committed == old(committed)
      ensures |trace| > |old(trace)| && trace[|old(trace)|] == old(disk).(previous := None)
    {
      hide AllSurvive, Earlier;
      var was := disk.previous;
      ghost var wasChain, gone := backup, disk.(previous := None);
      StoredIgnoresPointers(env, disk, gone, p, c, universe);
      StoredIgnoresPointers(env, disk, gone, was.value, wasChain.value, universe);
      SetPrevious(None, None, allowed, from);
      ok := how == Aside;
      if how == Aside {
        SetPrevious(Some(p), Some(c), allowed, from);
      } else if how == Restored {
        SetPrevious(was, wasChain, allowed, from);
      }
    }
  
    /** replace_file_atomic on CURRENT, once PREVIOUS names the commit that CURRENT named. */
    method ReplaceCurrent(p: Pointer, ghost c: Chain, how: Rename, ghost allowed: Outcomes, ghost from: nat) returns (ok: bool)
      requires Valid() && AllSurvive(env, universe, trace, from, allowed) && committed in allowed
      requires Stored(env, disk, p, c, universe) && Some(c) in allowed
      requires disk.previous.Some? ==> Earlier(disk.previous.value.meta, p.meta)
      requires committed == backup && (disk.current.Some? ==> disk.previous == disk.current)
      modifies this`disk, this`committed, this`trace
      ensures Valid() && AllSurvive(env, universe, trace, from, allowed) && committed in allowed && old(trace) <= trace
      ensures ok <==> Replaced(how, old(disk.current).Some?)
      ensures disk == old(disk).(current := if ok then Some(p) else if how == Lost then None else old(disk.current))
      ensures committed == if ok then Some(c) else old(committed)
    {
      hide AllSurvive, Earlier, Stored;
      if how == Direct {
        SetCurrent(Some(p), Some(c), allowed, from);
        return true;
      }
      if how == Fails || disk.current.None? {
        return false;
      }
      var was := disk.current;
      StoredIgnoresPointers(env, disk, disk.(current := None), p, c, universe);
      BackupStored();
      SetCurrent(None, None, allowed, from);
      ok := how == Aside;
      if how == Aside {
        SetCurrent(Some(p), Some(c), allowed, from);
      } else if how == Restored {
        SetCurrent(was, backup, allowed, from);
      }
    }

    lemma BackupStored()
      requires Valid() && disk.previous.Some?
      ensures backup.Some? && Stored(env, disk, disk.previous.value, backup.value, universe)
      ensures Stored(env, disk.(current := None), disk.previous.value, backup.value, universe)
    {
    }

    /** cleanup_old_state_files: keep what the pointers name and the four newest, delete the rest. */
    method CleanupStates(listing: seq<StateName>, newer: (StateName, StateName) -> bool, ghost allowed: Outcomes, ghost from: nat)
      requires Valid() && AllSurvive(env, universe, trace, from, allowed) && committed in allowed
      modifies this`disk, this`trace
      ensures Valid() && AllSurvive(env, universe, trace, from, allowed) && old(trace) <= trace
      ensures disk == old(disk).(states := disk.states)
      ensures KeptStates(old(disk), disk, listing, Newest(listing, newer, 4))
    {
      hide Consistent, AllSurvive;
      var files := Sort(listing, newer);
      SortMembers(listing, newer);
      var newest := Newest(listing, newer, 4);
      for i := 0 to |files|
        invariant Valid() && AllSurvive(env, universe, trace, from, allowed) && old(trace) <= trace
        invariant disk == old(disk).(states := disk.states) && committed == old(committed)
        invariant KeptStates(old(disk), disk, files[..i], newest)
      {
        if files[i] !in newest && StateUnnamed(disk, files[i]) {
          SetState(files[i], None, allowed, from);
        }
        assert files[..i + 1] == files[..i] + [files[i]];
      }
      assert files[..|files|] == files;
    }

    /** cleanup_old_journal_files: the same for journals, with the three newest. */
    method CleanupJournals(listing: seq<nat>, newer: (nat, nat) -> bool, ghost allowed: Outcomes, ghost from: nat)
      requires Valid() && AllSurvive(env, universe, trace, from, allowed) && committed in allowed
      modifies this`disk, this`trace
      ensures Valid() && AllSurvive(env, universe, trace, from, allowed) && old(trace) <= trace
      ensures disk == old(disk).(journals := disk.journals)
      ensures KeptJournals(old(disk), disk, listing, Newest(listing, newer, 3))
    {
      hide Consistent, AllSurvive;
      var files := Sort(listing, newer);
      SortMembers(listing, newer);
      var newest := Newest(listing, newer, 3);
      for i := 0 to |files|
        invariant Valid() && AllSurvive(env, universe, trace, from, allowed) && old(trace) <= trace
        invariant disk == old(disk).(journals := disk.journals) && committed == old(committed)
        invariant KeptJournals(old(disk), disk, files[..i], newest)
      {
        if files[i] !in newest && JournalUnnamed(disk, files[i]) {
          SetJournal(files[i], None, allowed, from);
        }
        assert files[..i + 1] == files[..i] + [files[i]];
      }
      assert files[..|files|] == files;
    }
  
    /** The pointer a writer starts from: CURRENT, or PREVIOUS where that is missing. */
    function StartOf(d: Disk): Option<Pointer>
    {
      if d.current.Some? then d.current else d.previous
    }

    /** The writer's starting point, as read_pointer_state_with_recovery finds it. */
    ghost predicate StartsFrom(basis: Option<Pointer>, c: Option<Chain>)
      reads this
    {
      && basis == StartOf(disk)
      && c == committed && (basis.Some? <==> c.Some?)
      && (basis.Some? ==> Stored(env, disk, basis.value, c.value, universe))
    }

    /** The writer started from PREVIOUS because CURRENT was missing, PREVIOUS is moved aside, and the state file got written. */
    predicate Fatal(d: Disk, m: Meta, io: IoPlan)
    {
      Exposed(d, io) && Replaced(io.state, StateName(m.generation, m.revision) in d.states)
    }

    /** Both pointers get replaced; without a pointer to start from PREVIOUS is left alone. */
    predicate PointersReplaced(d: Disk, io: IoPlan)
    {
      (StartOf(d).Some? ==> Replaced(io.previous, d.previous.Some?)) && Replaced(io.current, d.current.Some?)
    }

    /** The state file and the pointers get replaced. */
    predicate Installed(d: Disk, name: StateName, io: IoPlan)
    {
      Replaced(io.state, name in d.states) && PointersReplaced(d, io)
    }

    /** The pointer half of write_state_and_pointer: PREVIOUS, then CURRENT. */
    method ReplacePointers(basis: Option<Pointer>, ghost before: Option<Chain>, p: Pointer, ghost chain: Chain, io: IoPlan,
                           ghost allowed: Outcomes, ghost from: nat) returns (ok: bool)
      requires Valid() && AllSurvive(env, universe, trace, from, allowed) && Some(chain) in allowed && committed in allowed
      requires StartsFrom(basis, before) && Stored(env, disk, p, chain, universe)
      requires basis.Some? ==> Earlier(basis.value.meta, p.meta)
      requires Exposed(disk, io) ==> None in allowed
      modifies this`disk, this`committed, this`backup, this`trace
      ensures Valid() && AllSurvive(env, universe, trace, from, allowed) && committed in allowed && old(trace) <= trace
      ensures disk == old(disk).(previous := disk.previous, current := disk.current)
      ensures ok <==> PointersReplaced(old(disk), io)
      ensures ok ==> committed == Some(chain) && disk.current == Some(p)
      ensures !ok && !Exposed(old(disk), io) ==> committed == old(committed)
      ensures Exposed(old(disk), io) ==>
        exists i :: |old(trace)| <= i < |trace| && trace[i].current.None? && trace[i].previous.None?
      ensures old(disk).current.Some? && io.previous == Direct && io.current == Lost ==>
        disk.current.None? && disk.previous == old(disk).current
    {
      hide Consistent, AllSurvive, Stored, Earlier, InjectiveOn;
      if basis.Some? {
        ghost var d := disk;
        var previousOk := ReplacePrevious(basis.value, before.value, io.previous, allowed, from);
        if !previousOk {
          return false;
        }
        StoredIgnoresPointers(env, d, disk, p, chain, universe);
      } else {
        NothingNamed();
      }
      ok := ReplaceCurrent(p, chain, io.current, allowed, from);
    }

    /** write_state_and_pointer: the state snapshot, PREVIOUS, CURRENT, then cleanup. */
    method WriteStateAndPointer(basis: Option<Pointer>, ghost before: Option<Chain>, chain: Chain, meta: Meta, io: IoPlan,
                                ghost allowed: Outcomes, ghost from: nat)
      returns (r: Result<Pointer>)
      requires Valid() && AllSurvive(env, universe, trace, from, allowed) && Some(chain) in allowed && committed in allowed
      requires StartsFrom(basis, before)
      requires Sound(env, chain, universe) && meta == MetaOf(env, chain, meta.generation, meta.revision)
      requires HasJournal(env, disk, meta.generation, chain.blocks)
      requires basis.Some? ==> Earlier(basis.value.meta, meta)
      requires Fatal(disk, meta, io) ==> None in allowed
      modifies this`disk, this`committed, this`backup, this`trace
      ensures Valid() && AllSurvive(env, universe, trace, from, allowed) && committed in allowed && old(trace) <= trace
      ensures r.Ok? <==> Installed(old(disk), StateName(meta.generation, meta.revision), io) && io.settled
      ensures Installed(old(disk), StateName(meta.generation, meta.revision), io) ==> committed == Some(chain) && disk.current.Some?
      ensures r.Ok? ==> disk.current == Some(r.value) && r.value.meta == meta
      ensures r.Err? && io.settled && !Fatal(old(disk), meta, io) ==> committed == old(committed)
      ensures r.Err? && !io.settled && !Fatal(old(disk), meta, io) ==> committed == old(committed) || committed == Some(chain)
      ensures Fatal(old(disk), meta, io) ==>
        exists i :: |old(trace)| <= i < |trace| && trace[i].current.None? && trace[i].previous.None?
      ensures old(disk).current.Some? && LosesCurrent(io) ==>
        disk.current.None? && disk.previous == old(disk).current && committed == old(committed)
    {
      hide Consistent, AllSurvive, Sound, Stored, Earlier, InjectiveOn, Committed, MessagesWithin, Load, ChainWork, BlockHash, Lines;
      var state := StateOf(chain, meta);
      var name := StateName(meta.generation, meta.revision);
      NewNameIsUnnamed(basis, meta);
      var stateOk := ReplaceState(name, state, io.state, allowed, from);
      if !stateOk {
        return Err;
      }
      var p := PointerTo(env, state);
      CompletesCommit(env, disk, chain, meta, universe);
      if basis.Some? {
        BasisStillStored(basis.value);
      }
      var pointersOk := ReplacePointers(basis, before, p, chain, io, allowed, from);
      if !pointersOk {
        return Err;
      }
      CleanupStates(io.stateListing, io.stateAge, allowed, from);
      CleanupJournals(io.journalListing, io.journalAge, allowed, from);
      r := if io.settled then Ok(p) else Err;
    }

    /** A plan under which everything goes at once until CURRENT is moved aside and lost. */
    predicate LosesCurrent(io: IoPlan)
    {
      io.state == Direct && io.previous == Direct && io.current == Lost
    }

    lemma NothingNamed()
      requires Valid() && disk.current.None? && disk.previous.None?
      ensures committed == backup
    {
    }

    lemma NewNameIsUnnamed(basis: Option<Pointer>, m: Meta)
      requires Valid() && StartsFrom(basis, committed)
      requires basis.Some? ==> Earlier(basis.value.meta, m)
      ensures StateUnnamed(disk, StateName(m.generation, m.revision))
    {
      if basis.Some? {
        LaterIsUnnamed(env, disk, basis.value, committed, backup, universe, m);
      }
    }

    lemma BasisStillStored(p: Pointer)
      requires Valid() && (disk.current == Some(p) || (disk.current.None? && disk.previous == Some(p)))
      ensures committed.Some? && Stored(env, disk, p, committed.value, universe)
    {
    }
  
    /** Where the candidate's journal goes: behind the committed prefix, or into a new generation. */
    predicate Extends(chain: Chain, p: Pointer)
    {
      p.meta.height < |chain.blocks| && BlockHash(env.h, chain.blocks[p.meta.height]) == p.meta.tip
    }

    ghost predicate JournalReady(m: Meta, basis: Option<Pointer>, chain: Chain)
      requires chain.blocks != [] && ChainWork(chain.blocks).Ok?
      reads this
    {
      && m == MetaOf(env, chain, m.generation, m.revision)
      && HasJournal(env, disk, m.generation, chain.blocks)
      && (basis.Some? ==> Earlier(basis.value.meta, m))
    }

    /** Generation and revision of the candidate's commit. */
    function NextName(basis: Option<Pointer>, chain: Chain, clock: nat): StateName
    {
      if basis.None? then StateName(clock, 1)
      else if Extends(chain, basis.value) then StateName(basis.value.meta.generation, basis.value.meta.revision + 1)
      else StateName(basis.value.meta.generation + 1, 1)
    }

    /** Whether the candidate's blocks get onto disk. */
    predicate JournalSucceeds(d: Disk, basis: Option<Pointer>, chain: Chain, clock: nat, io: IoPlan)
    {
      if basis.Some? && Extends(chain, basis.value) then io.appended
      else Replaced(io.journal, NextName(basis, chain, clock).generation in d.journals)
    }

    /** The journal half of commit_chain_with_policy. */
    method WriteJournal(basis: Option<Pointer>, ghost before: Option<Chain>, chain: Chain, clock: nat, io: IoPlan,
                        ghost allowed: Outcomes, ghost from: nat)
      returns (r: Result<Meta>)
      requires Valid() && AllSurvive(env, universe, trace, from, allowed) && committed in allowed
      requires StartsFrom(basis, before) && Sound(env, chain, universe)
      modifies this`disk, this`trace
      ensures Valid() && AllSurvive(env, universe, trace, from, allowed) && old(trace) <= trace
      ensures StartsFrom(basis, before) && disk == old(disk).(journals := disk.journals)
      ensures r.Ok? <==> JournalSucceeds(old(disk), basis, chain, clock, io)
      ensures r.Ok? ==> JournalReady(r.value, basis, chain) && StateName(r.value.generation, r.value.revision) == NextName(basis, chain, clock)
    {
      if basis.Some? && Extends(chain, basis.value) {
        r := AppendNewBlocks(basis.value, before.value, chain, io, allowed, from);
      } else {
        r := WriteFullJournal(basis, before, chain, NextName(basis, chain, clock).generation, io.journal, allowed, from);
      }
    }

    method AppendNewBlocks(basis: Pointer, ghost before: Chain, chain: Chain, io: IoPlan,
                           ghost allowed: Outcomes, ghost from: nat) returns (r: Result<Meta>)
      requires Valid() && AllSurvive(env, universe, trace, from, allowed) && committed in allowed
      requires StartsFrom(Some(basis), Some(before)) && Sound(env, chain, universe) && Extends(chain, basis)
      modifies this`disk, this`trace
      ensures Valid() && AllSurvive(env, universe, trace, from, allowed) && old(trace) <= trace
      ensures StartsFrom(Some(basis), Some(before)) && disk == old(disk).(journals := disk.journals)
      ensures r.Ok? <==> io.appended
      ensures r.Ok? ==> JournalReady(r.value, Some(basis), chain)
      ensures r.Ok? ==> r.value.generation == basis.meta.generation && r.value.revision == basis.meta.revision + 1
    {
      hide Consistent, AllSurvive, ChainWork, Lines, InjectiveOn, MessagesWithin, Committed, Load;
      StoredFiles(env, disk, basis, before, universe);
      CandidateExtends(env, disk, basis, before, chain, universe);
      PreviousWithin(basis);
      var keep := basis.meta.journalBytes;
      var addition := Lines(env.codec, chain.blocks[basis.meta.height + 1..]);
      assert disk.journals[basis.blocksFile][..keep] == Lines(env.codec, before.blocks);
      AppendJournal(basis.blocksFile, keep, addition, io.torn, io.appended, allowed, from);
      StillStartsFrom(Some(basis), Some(before));
      r := if io.appended then Ok(MetaOf(env, chain, basis.meta.generation, basis.meta.revision + 1)) else Err;
    }

    lemma PreviousWithin(basis: Pointer)
      requires Valid() && StartsFrom(Some(basis), committed)
      ensures CommittedWithin(disk, basis.blocksFile, basis.meta.journalBytes)
    {
    }

    lemma StillStartsFrom(basis: Option<Pointer>, before: Option<Chain>)
      requires Valid() && before == committed && (basis.Some? <==> before.Some?)
      requires basis == (StartOf(disk))
      ensures StartsFrom(basis, before)
    {
    }

    method WriteFullJournal(basis: Option<Pointer>, ghost before: Option<Chain>, chain: Chain, generation: nat, how: Rename,
                            ghost allowed: Outcomes, ghost from: nat) returns (r: Result<Meta>)
      requires Valid() && AllSurvive(env, universe, trace, from, allowed) && committed in allowed
      requires StartsFrom(basis, before) && Sound(env, chain, universe)
      requires basis.Some? ==> generation == basis.value.meta.generation + 1
      modifies this`disk, this`trace
      ensures Valid() && AllSurvive(env, universe, trace, from, allowed) && old(trace) <= trace
      ensures StartsFrom(basis, before) && disk == old(disk).(journals := disk.journals)
      ensures r.Ok? <==> Replaced(how, generation in old(disk).journals)
      ensures r.Ok? ==> JournalReady(r.value, basis, chain) && r.value.generation == generation && r.value.revision == 1
    {
      hide AllSurvive, ChainWork, Lines;
      FreshGeneration(basis, generation);
      var ok := ReplaceJournal(generation, Lines(env.codec, chain.blocks), how, allowed, from);
      StillStartsFrom(basis, before);
      r := if ok then Ok(MetaOf(env, chain, generation, 1)) else Err;
    }

    lemma FreshGeneration(basis: Option<Pointer>, generation: nat)
      requires Valid() && StartsFrom(basis, committed)
      requires basis.Some? ==> generation == basis.value.meta.generation + 1
      ensures JournalUnnamed(disk, generation)
    {
    }

    /**
      The one input on which a commit is not crash-safe: CURRENT is missing, PREVIOUS is moved aside, and the
      policy, the journal and the state file let the commit get that far.
     */
    predicate Unsafe(d: Disk, chain: Chain, policy: Policy, clock: nat, io: IoPlan)
      requires chain.blocks != [] && ChainWork(chain.blocks).Ok?
    {
      && Exposed(d, io) && Accepts(d, chain, policy)
      && JournalSucceeds(d, d.previous, chain, clock, io)
      && Replaced(io.state, NextName(d.previous, chain, clock) in d.states)
    }

    /** The policy accepts the candidate, and its journal, its state file and both pointers get onto disk. */
    predicate Commits(d: Disk, chain: Chain, policy: Policy, clock: nat, io: IoPlan)
      requires chain.blocks != [] && ChainWork(chain.blocks).Ok?
    {
      && (StartOf(d).None? || Accepts(d, chain, policy))
      && JournalSucceeds(d, StartOf(d), chain, clock, io)
      && Installed(d, NextName(StartOf(d), chain, clock), io)
    }

    /** An ordinary commit that gets as far as replacing CURRENT and loses it there. */
    predicate LosesPointer(d: Disk, chain: Chain, policy: Policy, clock: nat, io: IoPlan)
      requires chain.blocks != [] && ChainWork(chain.blocks).Ok?
    {
      d.current.Some? && Accepts(d, chain, policy) && JournalSucceeds(d, d.current, chain, clock, io) && LosesCurrent(io)
    }

    /** Every directory content from here on loads the old chain or the new one. */
    ghost predicate AlwaysLoads(from: nat, before: Option<Chain>, chain: Chain)
      reads this
      requires from <= |trace|
    {
      forall i :: from <= i < |trace| ==> Load(env, trace[i]) == AsLoaded(before) || Load(env, trace[i]) == Ok(chain)
    }

    /**
      commit_chain_with_policy. A crash after any recorded step leaves a directory from which exactly the old or
      exactly the new chain is loaded, if and only if the input is not the unsafe one.
     */
    method CommitChain(chain: Chain, policy: Policy, clock: nat, io: IoPlan) returns (r: Result<Pointer>)
      requires Valid() && Sound(env, chain, universe)
      modifies this`disk, this`committed, this`backup, this`trace
      ensures Valid() && old(trace) <= trace
      ensures AlwaysLoads(|old(trace)|, old(committed), chain) <==> !Unsafe(old(disk), chain, policy, clock, io)
      ensures AllSurvive(env, universe, trace, |old(trace)|, Allowed(old(committed), chain, Unsafe(old(disk), chain, policy, clock, io)))
      ensures committed in Allowed(old(committed), chain, Unsafe(old(disk), chain, policy, clock, io))
      ensures r.Ok? <==> Commits(old(disk), chain, policy, clock, io) && io.settled
      ensures Commits(old(disk), chain, policy, clock, io) ==> committed == Some(chain) && Load(env, disk) == Ok(chain)
      ensures r.Ok? ==> disk.current == Some(r.value)
      ensures r.Ok? && old(committed).Some? ==> ChainWork(chain.blocks).value >= ChainWork(old(committed).value.blocks).value
      ensures old(committed).Some? && Accepts(old(disk), chain, policy) ==>
        ChainWork(chain.blocks).value >= ChainWork(old(committed).value.blocks).value
      ensures r.Err? && io.settled && !Unsafe(old(disk), chain, policy, clock, io) ==> committed == old(committed)
      ensures old(committed).Some? && !Accepts(old(disk), chain, policy) ==> r.Err? && disk == old(disk) && trace == old(trace) && committed == old(committed)
      ensures LosesPointer(old(disk), chain, policy, clock, io) ==> disk.current.None? && disk.previous == old(disk).current
    {
      hide AllSurvive, Stored, ChainWork, Lines, Linked, Consistent, Load, InjectiveOn, NotBehind, Earlier, HasJournal, MetaOf, Replaced, StateOf, PointerTo, MessagesWithin, Committed, BlockHash;
      ghost var allowed, from := Allowed(committed, chain, Unsafe(disk, chain, policy, clock, io)), |trace|;
      ghost var before, was := committed, disk;
      StartNow(allowed);
      var basis := StartOf(disk);
      if basis.Some? && !NotBehind(env, chain, basis.value, policy) {
        return Err;
      }
      if basis.Some? {
        NotBehindMeans(env, chain, basis.value, policy);
      }
      var meta := WriteJournal(basis, before, chain, clock, io, allowed, from);
      if meta.Err? {
        AllLoad(from, before, chain);
        return Err;
      }
      r := WriteStateAndPointer(basis, before, chain, meta.value, io, allowed, from);
      ConsistentLoads(env, disk, committed, backup, universe);
      if Unsafe(was, chain, policy, clock, io) {
        SomeLoadsNothing(from, before, chain);
      } else {
        AllLoad(from, before, chain);
      }
    }

    lemma AllLoad(from: nat, before: Option<Chain>, chain: Chain)
      requires env.codec.Faithful() && AllSurvive(env, universe, trace, from, Allowed(before, chain, false))
      ensures AlwaysLoads(from, before, chain)
    {
      hide Load, Survives;
      forall i | from <= i < |trace|
        ensures Load(env, trace[i]) == AsLoaded(before) || Load(env, trace[i]) == Ok(chain)
      {
        SurvivingLoads(env, universe, trace[i], Allowed(before, chain, false));
      }
    }

    lemma SomeLoadsNothing(from: nat, before: Option<Chain>, chain: Chain)
      requires from <= |trace| && before.Some? && exists i :: from <= i < |trace| && trace[i].current.None? && trace[i].previous.None?
      ensures !AlwaysLoads(from, before, chain)
    {
      hide Load;
      var i :| from <= i < |trace| && trace[i].current.None? && trace[i].previous.None?;
      NoPointerNoChain(env, trace[i]);
    }

    /**
      The unsafe input arises: an ordinary commit that loses CURRENT while replacing it, followed by a commit of
      the same chain that moves PREVIOUS aside, passes through a directory from which nothing loads.
     */
    method UnsafeArises(chain: Chain, policy: Policy, clock: nat, listing: IoPlan)
      requires Valid() && Sound(env, chain, universe) && disk.current.Some? && Accepts(disk, chain, policy)
      modifies this`disk, this`committed, this`backup, this`trace
      ensures Valid() && old(trace) <= trace
      ensures exists i :: |old(trace)| <= i < |trace| && Load(env, trace[i]) == Err
    {
      hide AllSurvive, Stored, ChainWork, Lines, Linked, Consistent, Load, Sound, NotBehind;
      SoundHasWork(env, chain, universe);
      CurrentIsCommitted();
      var first := listing.(appended := true, journal := Direct, state := Direct, previous := Direct, current := Lost);
      var lost := CommitChain(chain, policy, clock, first);
      ghost var middle, before := trace, committed;
      var second := listing.(appended := true, journal := Direct, state := Direct, previous := Aside, current := Direct);
      assert Unsafe(disk, chain, policy, clock, second);
      var again := CommitChain(chain, policy, clock, second);
      SomethingElseLoads(|middle|, before, chain);
    }

    lemma CurrentIsCommitted()
      requires Valid() && disk.current.Some?
      ensures committed.Some?
    {
    }

    lemma SomethingElseLoads(from: nat, before: Option<Chain>, chain: Chain)
      requires env.codec.Faithful() && AllSurvive(env, universe, trace, from, Allowed(before, chain, true))
      requires before.Some? && !AlwaysLoads(from, before, chain)
      ensures exists i :: from <= i < |trace| && Load(env, trace[i]) == Err
    {
      hide Load, Survives;
      var i :| from <= i < |trace| && Load(env, trace[i]) != AsLoaded(before) && Load(env, trace[i]) != Ok(chain);
      SurvivingLoads(env, universe, trace[i], Allowed(before, chain, true));
    }

    /** The allowed outcomes of a commit. */
    ghost function Allowed(before: Option<Chain>, chain: Chain, exposed: bool): Outcomes
    {
      {before, Some(chain)} + if exposed then {None} else {}
    }

    /** CURRENT is already missing and PREVIOUS is about to be moved aside. */
    predicate Exposed(d: Disk, io: IoPlan)
    {
      d.current.None? && d.previous.Some? && MovesAside(io.previous)
    }

    predicate Accepts(d: Disk, chain: Chain, policy: Policy)
      requires chain.blocks != [] && ChainWork(chain.blocks).Ok?
    {
      var basis := StartOf(d);
      basis.Some? && NotBehind(env, chain, basis.value, policy)
    }

    lemma StartNow(allowed: Outcomes)
      requires Valid() && committed in allowed
      ensures AllSurvive(env, universe, trace, |trace|, allowed)
      ensures StartsFrom(StartOf(disk), committed)
      ensures ReadPointer(env, disk) == if disk.current.Some? then Ok(disk.current.value) else if disk.previous.Some? then Ok(disk.previous.value) else Err
      ensures committed.Some? ==> ChainWork(committed.value.blocks).Ok?
      ensures var basis := StartOf(disk);
        basis.Some? ==> basis.value.meta.work == ChainWork(committed.value.blocks).value
    {
      ConsistentLoads(env, disk, committed, backup, universe);
    }
  
    /** The process dies at snapshot k and a new one finds the directory as it was then. */
    method CrashAt(k: nat, ghost allowed: Outcomes, ghost from: nat)
      requires Valid() && AllSurvive(env, universe, trace, from, allowed) && from <= k < |trace|
      modifies this`disk, this`committed, this`backup
      ensures Valid() && committed in allowed && disk == trace[k]
    {
      hide Consistent;
      assert Survives(env, universe, trace[k], allowed);
      ghost var c, b :| c in allowed && Consistent(env, trace[k], c, b, universe);
      disk := trace[k];
      committed, backup := c, b;
    }

    ghost predicate SoundAttempts(attempts: seq<Attempt>)
    {
      forall i :: 0 <= i < |attempts| ==> Sound(env, attempts[i].chain, universe)
    }

    /**
      Any sequence of commits, each one possibly cut off after any of its steps, until the first unsafe
      one: the directory always loads, what it loads is the start or one of the attempts, and the loaded
      work never goes down.
     */
    method Session(attempts: seq<Attempt>) returns (ran: nat)
      requires Valid() && SoundAttempts(attempts) && committed.Some?
      modifies this`disk, this`committed, this`backup, this`trace
      ensures Valid() && ran <= |attempts| && committed.Some? && Load(env, disk) == Ok(committed.value)
      ensures committed == old(committed) || exists i :: 0 <= i < ran && committed == Some(attempts[i].chain)
      ensures ChainWork(old(committed).value.blocks).Ok? && ChainWork(committed.value.blocks).Ok?
      ensures ChainWork(committed.value.blocks).value >= ChainWork(old(committed).value.blocks).value
      ensures ran < |attempts| ==> Unsafe(disk, attempts[ran].chain, attempts[ran].policy, attempts[ran].clock, attempts[ran].io)
    {
      ran := 0;
      WorkKnown();
      while ran < |attempts|
        invariant Valid() && ran <= |attempts| && committed.Some?
        invariant committed == old(committed) || exists i :: 0 <= i < ran && committed == Some(attempts[i].chain)
        invariant ChainWork(old(committed).value.blocks).Ok? && ChainWork(committed.value.blocks).Ok?
        invariant ChainWork(committed.value.blocks).value >= ChainWork(old(committed).value.blocks).value
      {
        if Unsafe(disk, attempts[ran].chain, attempts[ran].policy, attempts[ran].clock, attempts[ran].io) {
          break;
        }
        Attempted(attempts[ran]);
        ran := ran + 1;
        WorkKnown();
      }
      ConsistentLoads(env, disk, committed, backup, universe);
    }

    /** One commit, cut off after one of its steps if the attempt says so. */
    method Attempted(a: Attempt)
      requires Valid() && Sound(env, a.chain, universe) && committed.Some? && !Unsafe(disk, a.chain, a.policy, a.clock, a.io)
      modifies this`disk, this`committed, this`backup, this`trace
      ensures Valid() && committed.Some? && (committed == old(committed) || committed == Some(a.chain))
      ensures ChainWork(old(committed).value.blocks).Ok?
      ensures committed == Some(a.chain) ==> ChainWork(a.chain.blocks).value >= ChainWork(old(committed).value.blocks).value
    {
      hide Consistent, AllSurvive, Load, NotBehind, Unsafe, AlwaysLoads, Accepts, LosesPointer, Sound;
      WorkKnown();
      ghost var before, d, from := committed, disk, |trace|;
      var length := |trace|;
      var r := CommitChain(a.chain, a.policy, a.clock, a.io);
      if a.crashAt.Some? && length + a.crashAt.value < |trace| {
        CrashAt(length + a.crashAt.value, Allowed(before, a.chain, false), from);
      }
    }

    lemma WorkKnown()
      requires Valid() && committed.Some?
      ensures ChainWork(committed.value.blocks).Ok?
    {
    }
  }

  /** One commit attempt with the environment's choices and, maybe, the step after which the process dies. */
  datatype Attempt = Attempt(chain: Chain, policy: Policy, clock: nat, io: IoPlan, crashAt: Option<nat>)
}
