/** First use of the per-install salt by any number of processes at once.
  *
  * A process checks for the file, claims it with an exclusive create, and hands
  * it to `secure_write`, which unlinks, creates exclusively again, writes and
  * verifies; any failure from there on unlinks the path. A file is an inode, so
  * a write may land in a file that is no longer at the path.
  */
module Salt {
  import opened Options

  /** A process; the salt it would mint is named after it, since salts are random. */
  type Process = nat

  datatype Content = Blank | Garbage | Salt(minter: Process)

  datatype Phase =
    | Checking
    | Claiming
    | Unlinking
    | Creating
    | Writing(inode: nat)
    | Verifying
    | CleaningUp
    | Reading
    | Failed
    | Done(salt: Process)

  /** `path` is the inode the salt's name refers to, `files` every inode ever made. */
  datatype State = State(path: Option<nat>, files: seq<Content>, phases: map<Process, Phase>)

  /** `ok` is false when the operating system refuses the operation, or the
    * permissions do not read back as owner-only. */
  datatype Step =
    | Check(p: Process)
    | Claim(p: Process, ok: bool)
    | Unlink(p: Process, ok: bool)
    | Create(p: Process, ok: bool)
    | Write(p: Process, ok: bool)
    | Verify(p: Process, ok: bool)
    | CleanUp(p: Process, ok: bool)
    | ReadBack(p: Process, ok: bool)

  predicate Init(s: State) {
    && s.path.None? && s.files == []
    && (forall p <- s.phases :: s.phases[p] == Checking)
  }

  predicate Enabled(s: State, e: Step) {
    e.p in s.phases &&
    var phase := s.phases[e.p];
    match e
    case Check(_) => phase.Checking?
    case Claim(_, _) => phase.Claiming?
    case Unlink(_, _) => phase.Unlinking?
    case Create(_, _) => phase.Creating?
    case Write(_, _) => phase.Writing? && phase.inode < |s.files|
    case Verify(_, ok) => phase.Verifying? && (ok ==> s.path.Some?)
    case CleanUp(_, _) => phase.CleaningUp?
    case ReadBack(_, _) => phase.Reading?
  }

  function Goto(s: State, p: Process, phase: Phase): State {
    s.(phases := s.phases[p := phase])
  }

  function NewFile(s: State, content: Content): State {
    s.(path := Some(|s.files|), files := s.files + [content])
  }

  /** What `_read_salt_file` makes of the file at the path. */
  function ReadSalt(s: State): Phase {
    if s.path.Some? && s.path.value < |s.files| && s.files[s.path.value].Salt?
    then Done(s.files[s.path.value].minter) else Failed
  }

  /** With `atomic` the claim leaves the finished file behind in one step. */
  function Apply(atomic: bool, s: State, e: Step): State
    requires Enabled(s, e)
  {
    match e
    case Check(p) => Goto(s, p, if s.path.Some? then Reading else Claiming)
    case Claim(p, ok) =>
      if !ok then Goto(s, p, Failed)
      else if s.path.Some? then Goto(s, p, Reading)
      else if atomic then Goto(NewFile(s, Salt(p)), p, Verifying)
      else Goto(NewFile(s, Blank), p, Unlinking)
    case Unlink(p, ok) =>
      if ok then Goto(s.(path := None), p, Creating) else Goto(s, p, CleaningUp)
    case Create(p, ok) =>
      if ok && s.path.None? then Goto(NewFile(s, Blank), p, Writing(|s.files|)) else Goto(s, p, CleaningUp)
    case Write(p, ok) =>
      var inode := s.phases[p].inode;
      if ok then Goto(s.(files := s.files[inode := Salt(p)]), p, Verifying)
      else Goto(s.(files := s.files[inode := Garbage]), p, CleaningUp)
    case Verify(p, ok) => Goto(s, p, if ok then Done(p) else CleaningUp)
    case CleanUp(p, ok) => Goto(if ok then s.(path := None) else s, p, Failed)
    case ReadBack(p, ok) => Goto(s, p, if ok then ReadSalt(s) else Failed)
  }

  predicate Legal(atomic: bool, s: State, es: seq<Step>)
    decreases |es|
  {
    es == [] || (Enabled(s, es[0]) && Legal(atomic, Apply(atomic, s, es[0]), es[1..]))
  }

  function Run(atomic: bool, s: State, es: seq<Step>): State
    requires Legal(atomic, s, es)
    decreases |es|
  {
    if es == [] then s else Run(atomic, Apply(atomic, s, es[0]), es[1..])
  }

  /** All processes that obtained a salt obtained the same one. */
  ghost predicate Agreement(s: State) {
    forall p, q :: p in s.phases && q in s.phases && s.phases[p].Done? && s.phases[q].Done?
      ==> s.phases[p].salt == s.phases[q].salt
  }

  // ---------------------------------------------------------------- agreement without a discarded salt

  /** The path holds the finished salt of `p`. */
  ghost predicate OnDisk(s: State, p: Process) {
    s.path.Some? && s.path.value < |s.files| && s.files[s.path.value] == Salt(p)
  }

  /** The step takes a finished salt off the path, or finishes one in a file that
    * is not at the path. */
  ghost predicate Discards(s: State, e: Step) {
    match e
    case Unlink(_, ok) => ok && exists q :: OnDisk(s, q)
    case CleanUp(_, ok) => ok && exists q :: OnDisk(s, q)
    case Write(p, ok) => ok && p in s.phases && s.phases[p].Writing? && s.path != Some(s.phases[p].inode)
    case _ => false
  }

  ghost predicate Keeping(atomic: bool, s: State, es: seq<Step>)
    requires Legal(atomic, s, es)
    decreases |es|
  {
    es != [] ==> !Discards(s, es[0]) && Keeping(atomic, Apply(atomic, s, es[0]), es[1..])
  }

  ghost predicate PhaseInv(s: State, p: Process)
    requires p in s.phases
  {
    match s.phases[p]
    case Writing(i) => i < |s.files| && !s.files[i].Salt? &&
      forall q :: q in s.phases && q != p ==> s.phases[q] != Writing(i)
    case Verifying => OnDisk(s, p)
    case Done(n) => OnDisk(s, n)
    case _ => true
  }

  ghost predicate Inv(s: State) {
    && (s.path.Some? ==> s.path.value < |s.files|)
    && (forall p <- s.phases :: PhaseInv(s, p))
  }

  lemma KeepingStep(atomic: bool, s: State, e: Step, p: Process)
    requires Inv(s) && Enabled(s, e) && !Discards(s, e) && p in s.phases
    ensures PhaseInv(Apply(atomic, s, e), p)
  {
    assert PhaseInv(s, p) && PhaseInv(s, e.p);
    var s' := Apply(atomic, s, e);
    if s.phases[p].Done? {
      assert OnDisk(s, s.phases[p].salt);
      assert OnDisk(s', s.phases[p].salt);
    } else if s.phases[p].Verifying? {
      assert OnDisk(s, p);
    }
  }

  lemma {:induction false} KeepingRun(atomic: bool, s: State, es: seq<Step>)
    requires Inv(s) && Legal(atomic, s, es) && Keeping(atomic, s, es)
    ensures Inv(Run(atomic, s, es))
    decreases |es|
  {
    if es != [] {
      var s' := Apply(atomic, s, es[0]);
      forall p <- s'.phases ensures PhaseInv(s', p) { KeepingStep(atomic, s, es[0], p); }
      KeepingRun(atomic, s', es[1..]);
    }
  }

  /** Agreement holds in every run that never discards a finished salt. */
  lemma KeepingAgrees(atomic: bool, s: State, es: seq<Step>)
    requires Init(s) && Legal(atomic, s, es) && Keeping(atomic, s, es)
    ensures Agreement(Run(atomic, s, es))
  {
    KeepingRun(atomic, s, es);
    var t := Run(atomic, s, es);
    forall p, q | p in t.phases && q in t.phases && t.phases[p].Done? && t.phases[q].Done?
      ensures t.phases[p].salt == t.phases[q].salt
    {
      assert PhaseInv(t, p) && PhaseInv(t, q);
    }
  }

  // ---------------------------------------------------------------- when nothing is discarded

  predicate AllVerified(es: seq<Step>) {
    forall e <- es :: e.Verify? ==> e.ok
  }

  predicate Creator(phase: Phase) {
    phase.Unlinking? || phase.Creating? || phase.Writing? || phase.Verifying? || phase.CleaningUp?
  }

  ghost predicate NoSecureWrite(s: State) {
    forall p <- s.phases :: Creator(s.phases[p]) ==> s.phases[p].Verifying?
  }

  /** With an atomic claim, nothing is discarded as long as verification succeeds. */
  lemma {:induction false} AtomicKeeps(s: State, es: seq<Step>)
    requires NoSecureWrite(s) && Legal(true, s, es) && AllVerified(es)
    ensures Keeping(true, s, es)
    decreases |es|
  {
    if es != [] {
      assert es[0] in es;
      AtomicKeeps(Apply(true, s, es[0]), es[1..]);
    }
  }

  lemma AtomicAgrees(s: State, es: seq<Step>)
    requires Init(s) && Legal(true, s, es) && AllVerified(es)
    ensures Agreement(Run(true, s, es))
  {
    AtomicKeeps(s, es);
    KeepingAgrees(true, s, es);
  }

  /** At most one process is between its claim and the end of its verification. */
  ghost predicate OneCreator(s: State) {
    forall p, q :: p in s.phases && q in s.phases && Creator(s.phases[p]) && Creator(s.phases[q]) ==> p == q
  }

  ghost predicate OneCreatorThroughout(s: State, es: seq<Step>)
    requires Legal(false, s, es)
    decreases |es|
  {
    OneCreator(s) && (es != [] ==> OneCreatorThroughout(Apply(false, s, es[0]), es[1..]))
  }

  ghost predicate AloneInv(s: State, p: Process)
    requires p in s.phases
  {
    match s.phases[p]
    case Unlinking => s.path.Some? && s.path.value < |s.files| && s.files[s.path.value] == Blank
    case Creating => s.path.None?
    case Writing(i) => s.path == Some(i) && i < |s.files| && !s.files[i].Salt?
    case CleaningUp => forall q :: !OnDisk(s, q)
    case _ => true
  }

  lemma AloneStep(s: State, e: Step, p: Process)
    requires Enabled(s, e) && p in s.phases && AloneInv(s, p) && AloneInv(s, e.p)
    requires s.path.Some? ==> s.path.value < |s.files|
    requires OneCreator(s) && OneCreator(Apply(false, s, e)) && (e.Verify? ==> e.ok)
    ensures AloneInv(Apply(false, s, e), p)
  {
    var s' := Apply(false, s, e);
    assert Creator(s'.phases[p]) && Creator(s'.phases[e.p]) ==> p == e.p;
    assert Creator(s.phases[p]) && Creator(s.phases[e.p]) ==> p == e.p;
    if s'.phases[p].CleaningUp? {
      forall q ensures !OnDisk(s', q) { assert s.phases[p].CleaningUp? ==> !OnDisk(s, q); }
    }
  }

  lemma {:induction false} AloneKeeps(s: State, es: seq<Step>)
    requires forall p <- s.phases :: AloneInv(s, p)
    requires s.path.Some? ==> s.path.value < |s.files|
    requires Legal(false, s, es) && AllVerified(es) && OneCreatorThroughout(s, es)
    ensures Keeping(false, s, es)
    decreases |es|
  {
    if es != [] {
      var s' := Apply(false, s, es[0]);
      assert es[0] in es && AloneInv(s, es[0].p);
      assert OneCreatorThroughout(s', es[1..]);
      forall p <- s'.phases ensures AloneInv(s', p) { AloneStep(s, es[0], p); }
      AloneKeeps(s', es[1..]);
    }
  }

  /** As the code stands: agreement holds if creators never overlap and no
    * verification fails. */
  lemma AloneAgrees(s: State, es: seq<Step>)
    requires Init(s) && Legal(false, s, es) && AllVerified(es) && OneCreatorThroughout(s, es)
    ensures Agreement(Run(false, s, es))
  {
    AloneKeeps(s, es);
    KeepingAgrees(false, s, es);
  }

  // ---------------------------------------------------------------- undisturbed calls

  /** Every step of a first call, each of them working. */
  function Solo(p: Process): seq<Step> {
    [Check(p), Claim(p, true), Unlink(p, true), Create(p, true), Write(p, true), Verify(p, true)]
  }

  lemma {:induction false} Concat(atomic: bool, s: State, es: seq<Step>, fs: seq<Step>)
    requires Legal(atomic, s, es) && Legal(atomic, Run(atomic, s, es), fs)
    ensures Legal(atomic, s, es + fs) && Run(atomic, s, es + fs) == Run(atomic, Run(atomic, s, es), fs)
    decreases |es|
  {
    if es == [] {
      assert es + fs == fs;
    } else {
      Concat(atomic, Apply(atomic, s, es[0]), es[1..], fs);
      assert (es + fs)[1..] == es[1..] + fs;
    }
  }

  lemma Then(atomic: bool, s0: State, es: seq<Step>, e: Step) returns (fs: seq<Step>)
    requires Legal(atomic, s0, es) && Enabled(Run(atomic, s0, es), e)
    ensures fs == es + [e] && Legal(atomic, s0, fs)
    ensures Run(atomic, s0, fs) == Apply(atomic, Run(atomic, s0, es), e)
  {
    var s := Run(atomic, s0, es);
    assert Legal(atomic, s, [e]) && Run(atomic, s, [e]) == Apply(atomic, s, e) by {
      assert [e][1..] == [];
      assert Legal(atomic, Apply(atomic, s, e), []);
    }
    Concat(atomic, s0, es, [e]);
    fs := es + [e];
  }

  lemma {:induction false} Phases(phases: map<Process, Phase>, p: Process, a: Phase, b: Phase)
    ensures phases[p := a][p := b] == phases[p := b]
  {
  }

  /** A call that finds no file and is not disturbed gets its own salt and leaves it on disk. */
  lemma {:induction false} CreatesAlone(s: State, p: Process)
    requires s.path.None? && p in s.phases && s.phases[p].Checking?
    ensures Legal(false, s, Solo(p))
    ensures Run(false, s, Solo(p)).phases == s.phases[p := Done(p)] && OnDisk(Run(false, s, Solo(p)), p)
  {
    var es := Then(false, s, [], Check(p));
    es := Then(false, s, es, Claim(p, true));
    es := Then(false, s, es, Unlink(p, true));
    es := Then(false, s, es, Create(p, true));
    es := Then(false, s, es, Write(p, true));
    es := Then(false, s, es, Verify(p, true));
    assert es == Solo(p);
    assert Run(false, s, es).phases == s.phases[p := Done(p)];
  }

  /** One that finds a file reads it: it gets the salt in it, and fails if there is none in it or
    * it cannot be read. So does one that comes to claim the path and finds it taken. */
  lemma {:induction false} ReadsWhatIsThere(atomic: bool, s: State, p: Process, ok: bool)
    requires s.path.Some? && s.path.value < |s.files| && p in s.phases
    requires s.phases[p].Checking? || s.phases[p].Claiming?
    ensures var es := [if s.phases[p].Checking? then Check(p) else Claim(p, true), ReadBack(p, ok)];
      && Legal(atomic, s, es)
      && Run(atomic, s, es) == s.(phases := s.phases[p :=
           if !ok then Failed else match s.files[s.path.value] case Salt(q) => Done(q) case _ => Failed])
  {
    var first := if s.phases[p].Checking? then Check(p) else Claim(p, true);
    var es := Then(atomic, s, [], first);
    es := Then(atomic, s, es, ReadBack(p, ok));
    assert es == [first, ReadBack(p, ok)];
    Phases(s.phases, p, Reading, Run(atomic, s, es).phases[p]);
  }

  /** One that cannot claim the path fails and leaves everything as it is. */
  lemma {:induction false} ClaimRefused(atomic: bool, s: State, p: Process)
    requires p in s.phases && s.phases[p].Claiming?
    ensures Legal(atomic, s, [Claim(p, false)])
    ensures Run(atomic, s, [Claim(p, false)]) == s.(phases := s.phases[p := Failed])
  {
    var es := Then(atomic, s, [], Claim(p, false));
  }

  /** Where a first call can be refused once it has claimed the path. */
  function RefusedAt(p: Process, k: nat): seq<Step> {
    [Check(p), Claim(p, true)] +
    (if k == 0 then [Unlink(p, false)]
     else if k == 1 then [Unlink(p, true), Create(p, false)]
     else if k == 2 then [Unlink(p, true), Create(p, true), Write(p, false)]
     else [Unlink(p, true), Create(p, true), Write(p, true), Verify(p, false)])
    + [CleanUp(p, true)]
  }

  /** A first call that is refused anywhere after its claim fails, and there is no file. */
  lemma {:induction false} RefusedLeavesNothing(s: State, p: Process, k: nat)
    requires s.path.None? && p in s.phases && s.phases[p].Checking?
    ensures Legal(false, s, RefusedAt(p, k))
    ensures Run(false, s, RefusedAt(p, k)).path == None && Run(false, s, RefusedAt(p, k)).phases == s.phases[p := Failed]
  {
    var es := Then(false, s, [], Check(p));
    es := Then(false, s, es, Claim(p, true));
    var claimed := Run(false, s, es);
    assert claimed == State(Some(|s.files|), s.files + [Blank], s.phases[p := Unlinking]);
    var fs := RefusedThen(claimed, p, k);
    Concat(false, s, es, fs);
    assert es + fs == RefusedAt(p, k);
    Phases(s.phases, p, Unlinking, Failed);
  }

  lemma {:induction false} RefusedThen(s: State, p: Process, k: nat) returns (es: seq<Step>)
    requires s.path.Some? && p in s.phases && s.phases[p].Unlinking?
    ensures Legal(false, s, es) && Run(false, s, es).path == None && Run(false, s, es).phases == s.phases[p := Failed]
    ensures es == RefusedAt(p, k)[2..]
  {
    es := Then(false, s, [], Unlink(p, k != 0));
    if k >= 1 { es := Then(false, s, es, Create(p, k != 1)); }
    if k >= 2 { es := Then(false, s, es, Write(p, k != 2)); }
    if k >= 3 { es := Then(false, s, es, Verify(p, false)); }
    es := Then(false, s, es, CleanUp(p, true));
    assert es == RefusedAt(p, k)[2..];
    assert Run(false, s, es).phases == s.phases[p := Failed];
  }

  // ---------------------------------------------------------------- when it is lost

  /** Once an obtained salt is off the path, the next process to start gets another. */
  lemma LostSaltSplits(s: State, q: Process, p: Process)
    requires s.path.None? && {p, q} <= s.phases.Keys
    requires s.phases[p].Checking? && s.phases[q].Done? && s.phases[q].salt != p
    ensures Legal(false, s, Solo(p)) && !Agreement(Run(false, s, Solo(p)))
  {
    CreatesAlone(s, p);
    var t := Run(false, s, Solo(p));
    assert t.phases[q] == s.phases[q] && t.phases[p] == Done(p);
  }

  lemma OverlapBegins() returns (s: State, es: seq<Step>)
    ensures Init(s) && Legal(false, s, es) && AllVerified(es)
    ensures var t := Run(false, s, es);
      t.phases == map[1 := CleaningUp, 2 := Unlinking, 3 := Checking]
  {
    s := State(None, [], map[1 := Checking, 2 := Checking, 3 := Checking]);
    es := Then(false, s, [], Check(1));
    es := Then(false, s, es, Claim(1, true));
    es := Then(false, s, es, Unlink(1, true));
    es := Then(false, s, es, Check(2));
    es := Then(false, s, es, Claim(2, true));
    es := Then(false, s, es, Create(1, true));
  }

  lemma OverlapGoesOn(s: State) returns (es: seq<Step>)
    requires s.phases == map[1 := CleaningUp, 2 := Unlinking, 3 := Checking]
    ensures Legal(false, s, es) && AllVerified(es)
    ensures var t := Run(false, s, es);
      t.path.None? && {2, 3} <= t.phases.Keys && t.phases[2] == Done(2) && t.phases[3] == Checking
  {
    es := Then(false, s, [], Unlink(2, true));
    es := Then(false, s, es, Create(2, true));
    es := Then(false, s, es, Write(2, true));
    es := Then(false, s, es, Verify(2, true));
    es := Then(false, s, es, CleanUp(1, true));
  }

  /** Creator 2 claims inside creator 1's window, writes and returns; creator 1,
    * refused by its own exclusive create, removes 2's file; 3 mints afresh. */
  lemma OverlapTrace() returns (s: State, es: seq<Step>)
    ensures Init(s) && Legal(false, s, es) && AllVerified(es) && !Agreement(Run(false, s, es))
  {
    s, es := OverlapBegins();
    var fs := OverlapGoesOn(Run(false, s, es));
    Concat(false, s, es, fs);
    es := es + fs;
    LostSaltSplits(Run(false, s, es), 2, 3);
    Concat(false, s, es, Solo(3));
    es := es + Solo(3);
  }

  lemma ReadersKeepTheirSalt() returns (s: State, es: seq<Step>)
    ensures Init(s) && Legal(true, s, es)
    ensures var t := Run(true, s, es);
      t.path.None? && t.phases == map[1 := Failed, 2 := Done(1), 3 := Checking]
  {
    s := State(None, [], map[1 := Checking, 2 := Checking, 3 := Checking]);
    es := Then(true, s, [], Check(1));
    es := Then(true, s, es, Claim(1, true));
    es := Then(true, s, es, Check(2));
    es := Then(true, s, es, ReadBack(2, true));
    es := Then(true, s, es, Verify(1, false));
    es := Then(true, s, es, CleanUp(1, true));
  }

  /** An atomic claim alone is not enough: a reader keeps the salt whose minter
    * could not verify its permissions and removed it. */
  lemma UnverifiedTrace() returns (s: State, es: seq<Step>)
    ensures Init(s) && Legal(true, s, es) && !Agreement(Run(true, s, es))
  {
    s, es := ReadersKeepTheirSalt();
    es := Then(true, s, es, Check(3));
    es := Then(true, s, es, Claim(3, true));
    es := Then(true, s, es, Verify(3, true));
    var t := Run(true, s, es);
    assert t.phases[2] == Done(1) && t.phases[3] == Done(3);
  }

  // ---------------------------------------------------------------- exactly when it lasts

  /** Nobody is creating, everybody who is done has `n`, and the path holds a file
    * that does not offer another salt. */
  ghost predicate Settled(s: State, n: Process) {
    && s.path.Some?
    && (forall m :: OnDisk(s, m) ==> m == n)
    && (forall p <- s.phases :: !Creator(s.phases[p]) && (s.phases[p].Done? ==> s.phases[p].salt == n))
  }

  lemma {:induction false} SettledStays(s: State, n: Process, es: seq<Step>)
    requires Settled(s, n) && Legal(false, s, es)
    ensures Settled(Run(false, s, es), n)
    decreases |es|
  {
    if es != [] {
      var s' := Apply(false, s, es[0]);
      assert forall m :: OnDisk(s', m) <==> OnDisk(s, m);
      if s.path.Some? && s.path.value < |s.files| && s.files[s.path.value].Salt? {
        assert OnDisk(s, s.files[s.path.value].minter);
      }
      SettledStays(s', n, es[1..]);
    }
  }

  /** Files are written only where they were made. */
  ghost predicate WritesInPlace(s: State) {
    forall p <- s.phases :: s.phases[p].Writing? ==> s.phases[p].inode < |s.files|
  }

  /** The operation a creator is at, refused by the operating system. */
  function Refusal(s: State, r: Process): seq<Step>
    requires r in s.phases
  {
    match s.phases[r]
    case Unlinking => [Unlink(r, false)]
    case Creating => [Create(r, false)]
    case Writing(_) => [Write(r, false)]
    case Verifying => [Verify(r, false)]
    case _ => []
  }

  /** A creator may fail from wherever it stands, and then removes what is at the path. */
  lemma CreatorRemoves(s: State, r: Process) returns (es: seq<Step>)
    requires r in s.phases && Creator(s.phases[r]) && WritesInPlace(s)
    ensures Legal(false, s, es)
    ensures var t := Run(false, s, es);
      t.path.None? && t.phases == s.phases[r := Failed]
  {
    es := [];
    if !s.phases[r].CleaningUp? {
      es := Then(false, s, [], Refusal(s, r)[0]);
    }
    assert Run(false, s, es).phases == s.phases[r := CleaningUp];
    es := Then(false, s, es, CleanUp(r, true));
  }

  lemma CreatorSplits(s: State, r: Process, q: Process, p: Process) returns (es: seq<Step>)
    requires {p, q, r} <= s.phases.Keys && Creator(s.phases[r]) && WritesInPlace(s)
    requires s.phases[q].Done? && s.phases[p].Checking? && s.phases[q].salt != p
    ensures Legal(false, s, es) && !Agreement(Run(false, s, es))
  {
    es := CreatorRemoves(s, r);
    LostSaltSplits(Run(false, s, es), q, p);
    Concat(false, s, es, Solo(p));
    es := es + Solo(p);
  }

  /** Every continuation agrees. */
  ghost predicate AgreementLasts(s: State) {
    forall es :: Legal(false, s, es) ==> Agreement(Run(false, s, es))
  }

  lemma SplitBy(s: State, es: seq<Step>)
    requires Legal(false, s, es) && !Agreement(Run(false, s, es))
    ensures !AgreementLasts(s)
  {
  }

  /** Whatever is under way: once `q` has its salt and somebody is still to come, every
    * continuation agrees exactly when everybody who is done agrees now, nobody is
    * creating, and the path still holds a file and not another salt. That the salt is
    * readable is not even needed, since a reader then fails. */
  lemma AgreementLastsIff(s: State, q: Process, p: Process)
    requires {p, q} <= s.phases.Keys && WritesInPlace(s)
    requires s.phases[q].Done? && s.phases[p].Checking? && s.phases[q].salt != p
    ensures AgreementLasts(s) <==>
      && Agreement(s) && (forall r <- s.phases :: !Creator(s.phases[r]))
      && s.path.Some? && forall m :: OnDisk(s, m) ==> m == s.phases[q].salt
  {
    var n := s.phases[q].salt;
    if !Agreement(s) {
      SplitBy(s, []);
    } else if r :| r in s.phases && Creator(s.phases[r]) {
      var es := CreatorSplits(s, r, q, p);
      SplitBy(s, es);
    } else if s.path.None? {
      LostSaltSplits(s, q, p);
      SplitBy(s, Solo(p));
    } else if m :| OnDisk(s, m) && m != n {
      var es := Then(false, s, [], Check(p));
      es := Then(false, s, es, ReadBack(p, true));
      assert Run(false, s, es).phases[p] == Done(m) && Run(false, s, es).phases[q] == s.phases[q];
      SplitBy(s, es);
    } else {
      forall es | Legal(false, s, es) ensures Agreement(Run(false, s, es)) {
        SettledStays(s, n, es);
      }
    }
  }

  /** A salt's minter is past its first look, wherever the salt is. */
  ghost predicate Minted(s: State) {
    && WritesInPlace(s)
    && (forall i, m :: 0 <= i < |s.files| && s.files[i] == Salt(m) && m in s.phases ==> !s.phases[m].Checking?)
    && (forall p, m :: p in s.phases && s.phases[p] == Done(m) && m in s.phases ==> !s.phases[m].Checking?)
  }

  lemma StepKeepsFilesMinted(s: State, e: Step)
    requires Minted(s) && Enabled(s, e)
    ensures var s' := Apply(false, s, e);
      WritesInPlace(s') && s'.phases.Keys == s.phases.Keys && !s'.phases[e.p].Checking?
      && forall i, m :: 0 <= i < |s'.files| && s'.files[i] == Salt(m) && m in s'.phases ==> !s'.phases[m].Checking?
  {
  }

  lemma StepKeepsMinted(s: State, e: Step)
    requires Minted(s) && Enabled(s, e)
    ensures Minted(Apply(false, s, e))
  {
    var s' := Apply(false, s, e);
    StepKeepsFilesMinted(s, e);
    forall p, m | p in s'.phases && s'.phases[p] == Done(m) && m in s'.phases ensures !s'.phases[m].Checking? {
      if p == e.p && e.ReadBack? {
        assert s.files[s.path.value] == Salt(m);
      }
    }
  }

  lemma {:induction false} RunKeepsMinted(s: State, es: seq<Step>)
    requires Minted(s) && Legal(false, s, es)
    ensures Minted(Run(false, s, es))
    decreases |es|
  {
    if es != [] {
      StepKeepsMinted(s, es[0]);
      RunKeepsMinted(Apply(false, s, es[0]), es[1..]);
    }
  }

  /** The same for every state that a run gets to. */
  lemma AgreementAfterIff(start: State, es: seq<Step>, q: Process, p: Process)
    requires Init(start) && Legal(false, start, es)
    requires var s := Run(false, start, es);
      {p, q} <= s.phases.Keys && s.phases[q].Done? && s.phases[p].Checking?
    ensures
      var s := Run(false, start, es);
      AgreementLasts(s) <==>
        && Agreement(s) && (forall r <- s.phases :: !Creator(s.phases[r]))
        && s.path.Some? && forall m :: OnDisk(s, m) ==> m == s.phases[q].salt
  {
    RunKeepsMinted(start, es);
    AgreementLastsIff(Run(false, start, es), q, p);
  }
}
