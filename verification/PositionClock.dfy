/**
 * The sequence lock over the playback position: any number of writers and readers, one atomic access at a time. The
 * sequence number is 32 bits wide; `version` counts without wrapping.
 */
module PositionClock {
  const WORD := 0x1_0000_0000
  const ATTEMPTS := 3

  /** So many stores bring the number back to where it was. */
  const TURN := 0x8000_0000

  datatype Sample = Sample(position: int, at: nat)

  const EMPTY := Sample(-1, 0)

  /** A Store in progress, by the access it makes next. */
  datatype Writer =
    | Begin(sample: Sample)
    | Loaded(sample: Sample, seen: nat)
    | Held(sample: Sample, seen: nat)
    | Half(sample: Sample, seen: nat)
    | Filled(sample: Sample, seen: nat)
    | Wrote
    | Refused

  /**
   * A Read in progress; `since` is the version at the first load of this attempt, `ended` the number of stores finished
   * when it returned.
   */
  datatype Reader =
    | Trying(attempt: nat)
    | Seen(attempt: nat, before: nat, since: nat)
    | HalfRead(attempt: nat, before: nat, since: nat, position: int)
    | FullRead(attempt: nat, before: nat, since: nat, sample: Sample)
    | Returned(sample: Sample, ended: nat)

  /**
   * `log` holds the initial sample and what every finished Store has written, `asked` what any Store was given, and
   * `began` how many stores were finished when a Read began.
   */
  datatype State = State(sequence: nat, position: int, at: nat, version: nat, log: seq<Sample>, asked: set<Sample>,
                         writers: map<nat, Writer>, readers: map<nat, Reader>, began: map<nat, nat>)

  const START := State(0, -1, 0, 0, [EMPTY], {}, map[], map[], map[])

  function Stores(s: State): nat { s.version / 2 }

  datatype Event = NewStore(id: nat, sample: Sample) | StoreStep(id: nat) | NewRead(id: nat) | ReadStep(id: nat)

  predicate Enabled(s: State, e: Event) {
    match e
    case NewStore(i, _) => i !in s.writers
    case StoreStep(i) => i in s.writers && !s.writers[i].Wrote? && !s.writers[i].Refused?
    case NewRead(j) => j !in s.readers
    case ReadStep(j) => j in s.readers && !s.readers[j].Returned?
  }

  function WriterNow(s: State, i: nat, w: Writer): State { s.(writers := s.writers[i := w]) }

  function StoreNext(s: State, i: nat): State
    requires Enabled(s, StoreStep(i))
  {
    match s.writers[i]
    case Begin(sample) => WriterNow(s, i, if s.sequence % 2 == 1 then Refused else Loaded(sample, s.sequence))
    case Loaded(sample, seen) =>
      if s.sequence != seen then WriterNow(s, i, Refused)
      else WriterNow(s.(sequence := (seen + 1) % WORD, version := s.version + 1), i, Held(sample, seen))
    case Held(sample, seen) => WriterNow(s.(position := sample.position), i, Half(sample, seen))
    case Half(sample, seen) => WriterNow(s.(at := sample.at), i, Filled(sample, seen))
    case Filled(sample, seen) =>
      WriterNow(s.(sequence := (seen + 2) % WORD, version := s.version + 1, log := s.log + [sample]), i, Wrote)
  }

  function ReadNext(s: State, j: nat): Reader
    requires Enabled(s, ReadStep(j))
  {
    match s.readers[j]
    case Trying(attempt) =>
      if attempt >= ATTEMPTS then Returned(EMPTY, Stores(s))
      else if s.sequence % 2 == 1 then Trying(attempt + 1)
      else Seen(attempt, s.sequence, s.version)
    case Seen(attempt, before, since) => HalfRead(attempt, before, since, s.position)
    case HalfRead(attempt, before, since, position) => FullRead(attempt, before, since, Sample(position, s.at))
    case FullRead(attempt, before, since, sample) =>
      if s.sequence == before then Returned(sample, Stores(s)) else Trying(attempt + 1)
  }

  function Step(s: State, e: Event): State
    requires Enabled(s, e)
  {
    match e
    case NewStore(i, sample) => WriterNow(s.(asked := s.asked + {sample}), i, Begin(sample))
    case StoreStep(i) => StoreNext(s, i)
    case NewRead(j) => s.(readers := s.readers[j := Trying(0)], began := s.began[j := Stores(s)])
    case ReadStep(j) => s.(readers := s.readers[j := ReadNext(s, j)])
  }

  // ---- What every step keeps ----

  /** Between its compare-and-exchange and its last store. */
  predicate Holding(w: Writer) { w.Held? || w.Half? || w.Filled? }

  /** What the fields hold while a writer is inside, and how far it has got. */
  predicate Partly(s: State, w: Writer)
    requires Holding(w) && s.log != []
  {
    var last := s.log[|s.log| - 1];
    && w.seen < WORD && w.seen % 2 == 0 && s.sequence == w.seen + 1
    && s.position == (if w.Held? then last.position else w.sample.position)
    && s.at == (if w.Filled? then w.sample.at else last.at)
  }

  predicate Counted(s: State) { s.sequence == s.version % WORD && |s.log| == s.version / 2 + 1 && s.log[0] == EMPTY }

  predicate Writing(s: State)
    requires s.log != []
  {
    && (forall i, k :: i in s.writers && k in s.writers && Holding(s.writers[i]) && Holding(s.writers[k]) ==> i == k)
    && (forall i :: i in s.writers && Holding(s.writers[i]) ==> s.version % 2 == 1 && Partly(s, s.writers[i]))
    && Between(s)
  }

  predicate Between(s: State)
    requires s.log != []
  {
    && (s.version % 2 == 1 ==> exists i :: i in s.writers && Holding(s.writers[i]))
    && (s.version % 2 == 0 ==> Sample(s.position, s.at) == s.log[|s.log| - 1])
    && (forall i :: i in s.writers && s.writers[i].Loaded? ==> s.writers[i].seen % 2 == 0 && s.writers[i].seen < WORD)
  }

  /** As long as nothing was written since, what the reader has is what was current. */
  predicate Follows(s: State, r: Reader, began: nat)
    requires s.log != []
  {
    var last := s.log[|s.log| - 1];
    && began <= Stores(s)
    && ((r.Seen? || r.HalfRead? || r.FullRead?) ==>
          && r.since % 2 == 0 && 2 * began <= r.since <= s.version && r.before == r.since % WORD
          && (r.HalfRead? && r.since == s.version ==> r.position == last.position)
          && (r.FullRead? && r.since == s.version ==> r.sample == last))
    && (r.Returned? ==>
      began <= r.ended <= Stores(s) && (r.ended - began < TURN ==> WasCurrent(s.log, r.sample, began, r.ended)))
  }

  /** The initial sample, or what stood in the fields after one of these stores and before the next. */
  predicate WasCurrent(log: seq<Sample>, sample: Sample, from: nat, to: nat) {
    sample == EMPTY || exists k: nat :: from <= k <= to && k < |log| && log[k] == sample
  }

  predicate Recorded(s: State) {
    && (forall k :: 0 < k < |s.log| ==> s.log[k] in s.asked)
    && (forall i :: i in s.writers && !s.writers[i].Wrote? && !s.writers[i].Refused? ==> s.writers[i].sample in s.asked)
  }

  predicate Reading(s: State)
    requires s.log != []
  {
    forall j :: j in s.readers ==> j in s.began && Follows(s, s.readers[j], s.began[j])
  }

  predicate Inv(s: State) {
    Counted(s) && Writing(s) && Reading(s) && Recorded(s)
  }

  lemma InvStart()
    ensures Inv(START)
  {
  }

  lemma Parity(v: nat)
    ensures (v % WORD) % 2 == v % 2
    ensures v % WORD == WORD - 1 ==> v % 2 == 1
  {
    var q, r := v / WORD, v % WORD;
    assert v == 2 * (TURN * q) + r;
  }

  lemma Next(v: nat)
    ensures (v + 1) % WORD == (v % WORD + 1) % WORD
  {
  }

  lemma StoreKeepsCount(s: State, i: nat)
    requires Inv(s) && Enabled(s, StoreStep(i))
    ensures Counted(StoreNext(s, i))
  {
    Parity(s.version);
    Next(s.version);
  }

  lemma StoreKeepsBetween(s: State, i: nat)
    requires Inv(s) && Enabled(s, StoreStep(i))
    ensures Counted(StoreNext(s, i)) && Between(StoreNext(s, i))
  {
    hide Reading, Recorded;
    StoreKeepsCount(s, i);
    Parity(s.version);
    var t := StoreNext(s, i);
    if Holding(t.writers[i]) {
      assert i in t.writers && Holding(t.writers[i]);
    }
    if t.version % 2 == 1 && !Holding(t.writers[i]) {
      var k :| k in s.writers && Holding(s.writers[k]);
      assert k in t.writers && Holding(t.writers[k]);
    }
  }

  lemma StoreKeepsWriting(s: State, i: nat)
    requires Inv(s) && Enabled(s, StoreStep(i))
    ensures Counted(StoreNext(s, i)) && Writing(StoreNext(s, i))
  {
    hide Reading, Recorded, Between, Counted, Partly, StoreNext;
    StoreKeepsBetween(s, i);
    var t := StoreNext(s, i);
    assert t.log != [] by {
      LogGrows(s, i);
    }
    forall k | k in t.writers && Holding(t.writers[k])
      ensures t.version % 2 == 1 && Partly(t, t.writers[k])
    {
      StoreKeepsHolder(s, i, k);
    }
    forall k, l | k in t.writers && l in t.writers && Holding(t.writers[k]) && Holding(t.writers[l])
      ensures k == l
    {
      StoreKeepsAlone(s, i, k, l);
    }
  }

  lemma LogGrows(s: State, i: nat)
    requires Inv(s) && Enabled(s, StoreStep(i))
    ensures StoreNext(s, i).log != []
  {
  }

  lemma StoreKeepsHolder(s: State, i: nat, k: nat)
    requires Inv(s) && Enabled(s, StoreStep(i))
    requires var t := StoreNext(s, i); k in t.writers && Holding(t.writers[k])
    ensures var t := StoreNext(s, i); t.log != [] && t.version % 2 == 1 && Partly(t, t.writers[k])
  {
    hide Inv, Partly, Holding;
    if k == i {
      HolderItself(s, i);
    } else {
      HolderOther(s, i, k);
    }
  }

  lemma HolderItself(s: State, i: nat)
    requires Inv(s) && Enabled(s, StoreStep(i)) && Holding(StoreNext(s, i).writers[i])
    ensures var t := StoreNext(s, i); t.log != [] && t.version % 2 == 1 && Partly(t, t.writers[i])
  {
    hide Reading, Recorded, Between;
    match s.writers[i] {
      case Loaded(_, _) => LoadedTakes(s, i);
      case Held(_, _) =>
      case Half(_, _) =>
    }
  }

  lemma LoadedTakes(s: State, i: nat)
    requires Inv(s) && Enabled(s, StoreStep(i)) && s.writers[i].Loaded? && Holding(StoreNext(s, i).writers[i])
    ensures var t := StoreNext(s, i); t.log != [] && t.version % 2 == 1 && Partly(t, t.writers[i])
  {
    hide Reading, Recorded, Between;
    Parity(s.version);
    LoadedEven(s, i);
    Even(s);
  }

  lemma HolderOther(s: State, i: nat, k: nat)
    requires Inv(s) && Enabled(s, StoreStep(i)) && k != i && k in s.writers && Holding(s.writers[k])
    ensures var t := StoreNext(s, i);
      t.log != [] && t.version % 2 == 1 && t.writers[k] == s.writers[k] && Partly(t, t.writers[k])
  {
    hide Reading, Recorded, Between;
    if s.writers[i].Loaded? {
      LoadedEven(s, i);
    }
    assert Partly(s, s.writers[k]);
    assert !Holding(s.writers[i]);
  }

  lemma Even(s: State)
    requires Inv(s) && s.version % 2 == 0
    ensures Sample(s.position, s.at) == s.log[|s.log| - 1]
  {
  }

  lemma LoadedEven(s: State, i: nat)
    requires Inv(s) && i in s.writers && s.writers[i].Loaded?
    ensures s.writers[i].seen % 2 == 0 && s.writers[i].seen < WORD
  {
  }

  lemma StoreKeepsAlone(s: State, i: nat, k: nat, l: nat)
    requires Inv(s) && Enabled(s, StoreStep(i))
    requires var t := StoreNext(s, i);
      k in t.writers && l in t.writers && Holding(t.writers[k]) && Holding(t.writers[l])
    ensures k == l
  {
    hide Reading, Recorded, Between;
    Parity(s.version);
    if s.writers[i].Loaded? {
      LoadedEven(s, i);
    }
    if k != i {
      assert Holding(s.writers[k]) && Partly(s, s.writers[k]);
    }
    if l != i {
      assert Holding(s.writers[l]) && Partly(s, s.writers[l]);
    }
  }

  lemma StoreKeepsReaders(s: State, i: nat)
    requires Inv(s) && Enabled(s, StoreStep(i))
    ensures StoreNext(s, i).log != [] && Reading(StoreNext(s, i))
  {
    hide WasCurrent, Recorded;
    Parity(s.version);
    var t := StoreNext(s, i);
    forall j | j in t.readers
      ensures j in t.began && Follows(t, t.readers[j], t.began[j])
    {
      var r := s.readers[j];
      assert Follows(s, r, s.began[j]);
      if r.Returned? && r.ended - s.began[j] < TURN {
        StillCurrent(s.log, t.log, r.sample, s.began[j], r.ended);
      }
    }
  }

  lemma StillCurrent(log: seq<Sample>, more: seq<Sample>, sample: Sample, from: nat, to: nat)
    requires WasCurrent(log, sample, from, to) && log <= more
    ensures WasCurrent(more, sample, from, to)
  {
    if sample != EMPTY {
      var k: nat :| from <= k <= to && k < |log| && log[k] == sample;
      assert more[k] == sample;
    }
  }

  lemma SameRemainder(a: nat, b: nat)
    requires b <= a
    ensures a % WORD == b % WORD <==> (a - b) % WORD == 0
    ensures a - b < WORD && (a - b) % WORD == 0 ==> a == b
  {
    var qa, qb := a / WORD, b / WORD;
    if a % WORD == b % WORD {
      assert a - b == (qa - qb) * WORD;
    }
    if (a - b) % WORD == 0 {
      assert a == b + ((a - b) / WORD) * WORD;
    }
  }

  lemma ReadKeepsReaders(s: State, j: nat)
    requires Inv(s) && Enabled(s, ReadStep(j))
    ensures Follows(s, ReadNext(s, j), s.began[j])
  {
    hide Recorded;
    Parity(s.version);
    assert Follows(s, s.readers[j], s.began[j]);
    if s.readers[j].FullRead? {
      SameRemainder(s.version, s.readers[j].since);
    }
  }

  lemma StepKeeps(s: State, e: Event)
    requires Inv(s) && Enabled(s, e)
    ensures Inv(Step(s, e))
  {
    match e {
      case StoreStep(i) =>
        StoreKeepsWriting(s, i);
        StoreKeepsReaders(s, i);
        StoreKeepsRecord(s, i);
        StoreLeaves(s, i);
        hide *;
      case NewStore(i, sample) =>
        NewStoreKeeps(s, i, sample);
      case NewRead(j) =>
      case ReadStep(j) =>
        ReadKeepsReaders(s, j);
        ReadStepKeeps(s, j);
    }
  }

  lemma ReadStepKeeps(s: State, j: nat)
    requires Inv(s) && Enabled(s, ReadStep(j)) && Follows(s, ReadNext(s, j), s.began[j])
    ensures Inv(Step(s, ReadStep(j)))
  {
    hide ReadNext, WasCurrent;
  }

  lemma StoreLeaves(s: State, i: nat)
    requires Enabled(s, StoreStep(i))
    ensures Step(s, StoreStep(i)) == StoreNext(s, i)
  {
  }

  lemma StoreKeepsRecord(s: State, i: nat)
    requires Inv(s) && Enabled(s, StoreStep(i))
    ensures Recorded(StoreNext(s, i))
  {
    hide Follows, Writing;
  }

  lemma NewStoreKeeps(s: State, i: nat, sample: Sample)
    requires Inv(s) && Enabled(s, NewStore(i, sample))
    ensures Inv(Step(s, NewStore(i, sample)))
  {
    var t := Step(s, NewStore(i, sample));
    if t.version % 2 == 1 {
      var k :| k in s.writers && Holding(s.writers[k]);
      assert k in t.writers && Holding(t.writers[k]);
    }
  }

  // ---- Whole runs ----

  predicate CanRun(s: State, es: seq<Event>)
    decreases |es|
  {
    es == [] || (Enabled(s, es[0]) && CanRun(Step(s, es[0]), es[1..]))
  }

  function Run(s: State, es: seq<Event>): State
    requires CanRun(s, es)
    decreases |es|
  {
    if es == [] then s else Run(Step(s, es[0]), es[1..])
  }

  lemma {:induction false} RunKeeps(s: State, es: seq<Event>)
    requires Inv(s) && CanRun(s, es)
    ensures Inv(Run(s, es))
    decreases |es|
  {
    hide Inv, Step, Enabled;
    if es != [] {
      StepKeeps(s, es[0]);
      RunKeeps(Step(s, es[0]), es[1..]);
    }
  }

  /**
   * Never two writers between their compare-and-exchange and their last store; the number is odd exactly while
   * there is one.
   */
  lemma OneWriter(es: seq<Event>)
    requires CanRun(START, es)
    ensures var s := Run(START, es);
      && (forall i, k :: i in s.writers && k in s.writers && Holding(s.writers[i]) && Holding(s.writers[k]) ==> i == k)
      && (s.sequence % 2 == 1 <==> exists i :: i in s.writers && Holding(s.writers[i]))
  {
    InvStart();
    RunKeeps(START, es);
    Parity(Run(START, es).version);
    hide Run, CanRun;
  }

  /** The sample a reader is about to check. */
  predicate Checking(s: State, j: nat) { j in s.readers && s.readers[j].FullRead? }

  /** A reader accepts its sample exactly when the number of changes since its first load is a multiple of 2^32. */
  lemma AcceptsWhen(es: seq<Event>, j: nat)
    requires CanRun(START, es) && Checking(Run(START, es), j)
    ensures var s := Run(START, es); var r := s.readers[j];
      && r.since <= s.version
      && (ReadNext(s, j).Returned? <==> (s.version - r.since) % WORD == 0)
  {
    InvStart();
    RunKeeps(START, es);
    var s := Run(START, es);
    hide Run, CanRun;
    assert Follows(s, s.readers[j], s.began[j]);
    SameRemainder(s.version, s.readers[j].since);
  }

  /**
   * What a finished Read returns: the empty sample, or a pair that one Store wrote and that was current at some moment
   * of the Read, unless 2^31 stores or more finished while it went on.
   */
  lemma ReadWhole(es: seq<Event>, j: nat)
    requires CanRun(START, es) && j in Run(START, es).readers && Run(START, es).readers[j].Returned?
    ensures var s := Run(START, es); var r := s.readers[j];
      && j in s.began && s.began[j] <= r.ended < |s.log|
      && (r.ended - s.began[j] < TURN ==>
            && WasCurrent(s.log, r.sample, s.began[j], r.ended)
            && (r.sample == EMPTY || r.sample in s.asked))
  {
    InvStart();
    RunKeeps(START, es);
    var s := Run(START, es);
    hide Run, CanRun;
    var r := s.readers[j];
    assert Follows(s, r, s.began[j]);
    if r.ended - s.began[j] < TURN && r.sample != EMPTY {
      var k: nat :| s.began[j] <= k <= r.ended && k < |s.log| && s.log[k] == r.sample;
      assert s.log[k] in s.asked;
    }
  }

  /** An attempt of this reader that comes to nothing: the number is odd at its start or another one at its end. */
  predicate Fails(s: State, e: Event, j: nat)
    requires Enabled(s, e)
  {
    && e == ReadStep(j) && !ReadNext(s, j).Returned?
    && match s.readers[j]
       case Trying(_) => s.sequence % 2 == 1
       case FullRead(_, before, _, _) => s.sequence != before
       case _ => false
  }

  function Failures(s: State, es: seq<Event>, j: nat): nat
    requires CanRun(s, es)
    decreases |es|
  {
    if es == [] then 0 else (if Fails(s, es[0], j) then 1 else 0) + Failures(Step(s, es[0]), es[1..], j)
  }

  /** Attempts are counted, and only an attempt that may still come to something gets beyond its first load. */
  predicate CountedTo(r: Reader, n: nat) {
    match r
    case Trying(attempt) => attempt == n <= 3
    case Seen(attempt, _, _) => attempt == n <= 2
    case HalfRead(attempt, _, _, _) => attempt == n <= 2
    case FullRead(attempt, _, _, _) => attempt == n <= 2
    case Returned(_, _) => n <= 3
  }

  lemma StepCounts(s: State, e: Event, j: nat, n: nat)
    requires Enabled(s, e) && j in s.readers && CountedTo(s.readers[j], n)
    ensures j in Step(s, e).readers && CountedTo(Step(s, e).readers[j], n + if Fails(s, e, j) then 1 else 0)
  {
  }

  lemma {:induction false} RunCounts(s: State, es: seq<Event>, j: nat, n: nat)
    requires CanRun(s, es) && j in s.readers && CountedTo(s.readers[j], n)
    ensures j in Run(s, es).readers && CountedTo(Run(s, es).readers[j], n + Failures(s, es, j))
    decreases |es|
  {
    hide CountedTo, Fails, Step;
    if es != [] {
      StepCounts(s, es[0], j, n);
      RunCounts(Step(s, es[0]), es[1..], j, n + if Fails(s, es[0], j) then 1 else 0);
    }
  }

  /** A Read makes three attempts and no more: after the third it returns the empty sample, and not before. */
  lemma ThreeAttempts(s: State, j: nat, es: seq<Event>)
    requires Enabled(s, NewRead(j)) && CanRun(Step(s, NewRead(j)), es)
    ensures var s0 := Step(s, NewRead(j));
      Failures(s0, es, j) <= 3 && j in Run(s0, es).readers
    ensures var s0 := Step(s, NewRead(j)); var t := Run(s0, es);
      Enabled(t, ReadStep(j)) && t.readers[j].Trying? ==>
        && (Failures(s0, es, j) == 3 ==> ReadNext(t, j) == Returned(Sample(-1, 0), Stores(t)))
        && (Failures(s0, es, j) < 3 ==>
          !ReadNext(t, j).Returned? && (ReadNext(t, j).Seen? <==> t.sequence % 2 == 0))
  {
    hide Run, CanRun, Failures;
    RunCounts(Step(s, NewRead(j)), es, j, 0);
  }

  // ---- The bound is tight ----

  lemma {:induction false} RunAppend(s: State, a: seq<Event>, b: seq<Event>)
    requires CanRun(s, a) && CanRun(Run(s, a), b)
    ensures CanRun(s, a + b) && Run(s, a + b) == Run(Run(s, a), b)
    decreases |a|
  {
    hide Step, Enabled;
    if a == [] {
      assert a + b == b;
    } else {
      RunAppend(Step(s, a[0]), a[1..], b);
      assert (a + b)[1..] == a[1..] + b;
    }
  }

  lemma RunOne(s: State, e: Event)
    requires Enabled(s, e)
    ensures CanRun(s, [e]) && Run(s, [e]) == Step(s, e)
  {
    hide Step, Enabled;
    assert [e][1..] == [];
    assert CanRun(Step(s, e), []) && Run(Step(s, e), []) == Step(s, e);
  }

  lemma Then(s: State, es: seq<Event>, e: Event) returns (more: seq<Event>)
    requires CanRun(s, es) && Enabled(Run(s, es), e)
    ensures more == es + [e] && CanRun(s, more) && Run(s, more) == Step(Run(s, es), e)
  {
    RunOne(Run(s, es), e);
    RunAppend(s, es, [e]);
    more := es + [e];
  }

  /** After a Store that nothing disturbs. */
  function Stored(s: State, i: nat, sample: Sample): State {
    s.(sequence := (s.sequence + 2) % WORD, position := sample.position, at := sample.at, version := s.version + 2,
       log := s.log + [sample], asked := s.asked + {sample}, writers := s.writers[i := Wrote])
  }

  lemma WholeStore(s: State, i: nat, sample: Sample) returns (es: seq<Event>)
    requires s.sequence % 2 == 0 && s.sequence < WORD && i !in s.writers
    ensures CanRun(s, es) && Run(s, es) == Stored(s, i, sample)
  {
    hide Run, CanRun;
    RunOne(s, NewStore(i, sample));
    es := [NewStore(i, sample)];
    es := Then(s, es, StoreStep(i));
    es := Then(s, es, StoreStep(i));
    es := Then(s, es, StoreStep(i));
    es := Then(s, es, StoreStep(i));
    es := Then(s, es, StoreStep(i));
    assert s.writers[i := Wrote] == Run(s, es).writers;
  }

  /** Any number of stores of the same sample, one after the other. */
  lemma {:induction false} ManyStores(s: State, i: nat, sample: Sample, n: nat) returns (es: seq<Event>)
    requires s.sequence == s.version % WORD && s.version % 2 == 0 && forall k :: k in s.writers ==> k < i
    ensures CanRun(s, es)
    ensures var t := Run(s, es);
      && t.version == s.version + 2 * n && t.sequence == t.version % WORD && t.readers == s.readers
      && t.began == s.began
      && (n > 0 ==> t.position == sample.position && t.at == sample.at)
      && (n == 0 ==> t == s)
      && s.log <= t.log && forall k :: |s.log| <= k < |t.log| ==> t.log[k] == sample
    decreases n
  {
    hide Run, CanRun;
    if n == 0 {
      es := [];
      assert CanRun(s, []) && Run(s, []) == s by {
        RunNothing(s);
      }
    } else {
      Parity(s.version);
      es := WholeStore(s, i, sample);
      var t := Stored(s, i, sample);
      TwoMore(s.version);
      var rest := ManyStores(t, i + 1, sample, n - 1);
      RunAppend(s, es, rest);
      es := es + rest;
    }
  }

  lemma RunNothing(s: State)
    ensures CanRun(s, []) && Run(s, []) == s
  {
  }

  lemma TwoMore(v: nat)
    ensures (v + 2) % WORD == (v % WORD + 2) % WORD
  {
  }

  /**
   * With exactly 2^31 stores between its two loads a Read can return a position and a time that no one stored
   * together.
   */
  lemma TornAfterTurn() returns (es: seq<Event>)
    ensures CanRun(START, es) && 0 in Run(START, es).readers && 0 in Run(START, es).began
    ensures var s := Run(START, es); var r := s.readers[0];
      r.Returned? && r.ended - s.began[0] == TURN && r.sample != EMPTY && r.sample !in s.log
  {
    hide Run, CanRun;
    RunOne(START, NewRead(0));
    es := [NewRead(0)];
    es := Then(START, es, ReadStep(0));
    es := Then(START, es, ReadStep(0));
    ghost var s := Run(START, es);
    assert s.readers[0] == HalfRead(0, 0, 0, -1) && s.version == 0 && s.log == [EMPTY] && s.writers == map[];
    var stores := ManyStores(s, 0, Sample(5, 7), TURN);
    RunAppend(START, es, stores);
    es := es + stores;
    es := Then(START, es, ReadStep(0));
    es := Then(START, es, ReadStep(0));
    assert Run(START, es).readers[0] == Returned(Sample(-1, 7), TURN);
  }

  // ---- One thread ----

  /** The clock as one thread sees it while no other is at it. */
  class Clock {
    var sequence: nat
    var position: int
    var at: nat

    predicate Valid()
      reads this
    {
      sequence < WORD
    }

    constructor ()
      ensures Valid() && sequence % 2 == 0 && Sample(position, at) == EMPTY
    {
      sequence, position, at := 0, -1, 0;
    }

    method Store(newPosition: int, newAt: nat) returns (ok: bool)
      requires Valid()
      modifies this
      ensures Valid() && ok == (old(sequence) % 2 == 0)
      ensures ok ==>
        Sample(position, at) == Sample(newPosition, newAt) && sequence == (old(sequence) + 2) % WORD
          && sequence % 2 == 0
      ensures !ok ==> sequence == old(sequence) && position == old(position) && at == old(at)
    {
      var seen := sequence;
      if seen % 2 == 1 {
        return false;
      }
      sequence := (seen + 1) % WORD;
      position := newPosition;
      at := newAt;
      sequence := (seen + 2) % WORD;
      ok := true;
    }

    /** At most three attempts; a number that stays odd gives the empty sample. */
    method Read() returns (sample: Sample)
      requires Valid()
      ensures sample == if sequence % 2 == 0 then Sample(position, at) else EMPTY
    {
      for attempt := 0 to ATTEMPTS
        invariant attempt > 0 ==> sequence % 2 == 1
      {
        var before := sequence;
        if before % 2 == 1 {
          continue;
        }
        sample := Sample(position, at);
        if before == sequence {
          return;
        }
      }
      sample := EMPTY;
    }
  }
}
