/** A priority queue packed into the scores of a sorted set, against the queue it stands for. */
module PackedQueue {
  import opened Binary64
  import opened Options
  import opened Sorting
  import opened Strings

  const SPAN := 1_000_000_000_000

  /** `priority * 1e12 + seq` as binary64 computes it. */
  function Score(priority: int, n: nat): int {
    Fl(Fl(Fl(priority) * SPAN) + Fl(n))
  }

  /** A sorted set holds its members by score, equal scores by member. */
  datatype Member = Member(message: string, score: int)

  predicate MemberLe(a: Member, b: Member) {
    a.score < b.score || (a.score == b.score && StrLe(a.message, b.message))
  }

  function Removed(z: seq<Member>, message: string): seq<Member> {
    if z == [] then []
    else
      var before, last := Removed(z[..|z| - 1], message), z[|z| - 1];
      if last.message == message then before else before + [last]
  }

  /** ZADD: a member already present moves to its new score. */
  function ZAdd(z: seq<Member>, message: string, score: int): seq<Member> {
    Insert(Removed(z, message), Member(message, score), MemberLe)
  }

  datatype Op = Push(topic: string, message: string, priority: int) | Pop(topic: string) | Size(topic: string)

  datatype Answer = Pushed | Popped(message: Option<string>) | Count(n: nat)

  /** One backend instance: its counter and the sorted sets by topic. */
  datatype State = State(n: nat, sets: map<string, seq<Member>>)

  const NO_MEMBERS: seq<Member> := []

  function SetOf(s: State, topic: string): seq<Member> {
    if topic in s.sets then s.sets[topic] else NO_MEMBERS
  }

  function Next(s: State, op: Op): State {
    match op
    case Push(topic, message, priority) =>
      State(s.n + 1, s.sets[topic := ZAdd(SetOf(s, topic), message, Score(priority, s.n + 1))])
    case Pop(topic) => if SetOf(s, topic) == [] then s else s.(sets := s.sets[topic := SetOf(s, topic)[1..]])
    case Size(_) => s
  }

  function Reply(s: State, op: Op): Answer {
    match op
    case Push(_, _, _) => Pushed
    case Pop(topic) => Popped(if SetOf(s, topic) == [] then None else Some(SetOf(s, topic)[0].message))
    case Size(topic) => Count(|SetOf(s, topic)|)
  }

  // ----- the backend as the source writes it -------------------------------------------------------

  class RedisBackend {
    var n: nat
    var sets: map<string, seq<Member>>

    constructor ()
      ensures Snapshot() == State(0, map[])
    {
      n, sets := 0, map[];
    }

    function Snapshot(): State
      reads this
    {
      State(n, sets)
    }

    method PushMessage(topic: string, message: string, priority: int)
      modifies this
      ensures Snapshot() == Next(old(Snapshot()), Push(topic, message, priority))
    {
      n := n + 1;
      var score := Fl(Fl(Fl(priority) * SPAN) + Fl(n));
      sets := sets[topic := ZAdd(if topic in sets then sets[topic] else NO_MEMBERS, message, score)];
    }

    method PopMessage(topic: string) returns (message: Option<string>)
      modifies this
      ensures Snapshot() == Next(old(Snapshot()), Pop(topic))
      ensures Popped(message) == Reply(old(Snapshot()), Pop(topic))
    {
      if topic !in sets || sets[topic] == [] {
        return None;
      }
      message := Some(sets[topic][0].message);
      sets := sets[topic := sets[topic][1..]];
    }

    method QueueSize(topic: string) returns (size: nat)
      ensures Count(size) == Reply(Snapshot(), Size(topic))
    {
      size := if topic in sets then |sets[topic]| else 0;
    }
  }

  // ----- the queue it stands for -------------------------------------------------------------------

  /** A queued message, and which push brought it. The queue below never looks at `at`. */
  datatype Entry = Entry(message: string, priority: int, at: nat)

  /** Entries in the order they were pushed. */
  type Queue = seq<Entry>

  function Dropped(q: Queue, message: string): Queue {
    if q == [] then []
    else
      var before, last := Dropped(q[..|q| - 1], message), q[|q| - 1];
      if last.message == message then before else before + [last]
  }

  /** The first entry of the smallest priority. */
  function Front(q: Queue): (i: nat)
    requires q != []
    ensures i < |q|
    ensures forall j :: 0 <= j < i ==> q[i].priority < q[j].priority
    ensures forall j :: i < j < |q| ==> q[i].priority <= q[j].priority
  {
    var last := |q| - 1;
    if last == 0 then 0
    else
      var i := Front(q[..last]);
      if q[last].priority < q[i].priority then last else i
  }

  datatype Reference = Reference(n: nat, queues: map<string, Queue>)

  const NO_ENTRIES: Queue := []

  function QueueOf(r: Reference, topic: string): Queue {
    if topic in r.queues then r.queues[topic] else NO_ENTRIES
  }

  function Without(q: Queue, i: nat): Queue
    requires i < |q|
  {
    q[..i] + q[i + 1..]
  }

  /** A pushed message goes to the end, leaving its old place if it was queued already. */
  function RefNext(r: Reference, op: Op): Reference {
    match op
    case Push(topic, message, priority) =>
      Reference(r.n + 1, r.queues[topic := Dropped(QueueOf(r, topic), message) + [Entry(message, priority, r.n + 1)]])
    case Pop(topic) =>
      var q := QueueOf(r, topic);
      if q == [] then r else r.(queues := r.queues[topic := Without(q, Front(q))])
    case Size(_) => r
  }

  function RefReply(r: Reference, op: Op): Answer {
    match op
    case Push(_, _, _) => Pushed
    case Pop(topic) =>
      var q := QueueOf(r, topic);
      Popped(if q == [] then None else Some(q[Front(q)].message))
    case Size(topic) => Count(|QueueOf(r, topic)|)
  }

  // ----- when scores are exact ---------------------------------------------------------------------

  /** No intermediate result needs more than 53 bits. */
  predicate Storable(priority: int, n: nat) {
    -EXACT <= priority * SPAN <= EXACT && -EXACT <= priority * SPAN + n <= EXACT && n <= EXACT
  }

  lemma ScoreIsExact(priority: int, n: nat)
    requires Storable(priority, n)
    ensures Score(priority, n) == priority * SPAN + n
  {
    FlExact(priority);
    FlExact(priority * SPAN);
    FlExact(n);
    FlExact(priority * SPAN + n);
  }

  /** Every score of a priority is exact for all push numbers below 10^12 exactly from -9007 to 9006. */
  lemma StorablePriorities(p: int)
    ensures (forall n: nat :: n < SPAN ==> Storable(p, n)) <==> -9007 <= p <= 9006
  {
    if -9007 <= p <= 9006 {
      assert -9007 * SPAN <= p * SPAN <= 9006 * SPAN;
    } else {
      assert p > 9006 ==> p * SPAN >= 9007 * SPAN;
      assert !Storable(p, SPAN - 1);
    }
  }

  /** The later of two pushes still comes out first if its priority is smaller. */
  predicate StillFirst(early: Entry, late: Entry) {
    late.at < early.at + SPAN || (late.at == early.at + SPAN && StrLe(late.message, early.message))
  }

  /** Push `a` of a smaller priority scores below push `b` of a larger one, whatever the two priorities,
      exactly when `a` is less than 10^12 pushes later. */
  lemma PriorityDecides(a: nat, b: nat)
    requires a <= HALF && b <= HALF
    ensures (forall p, q :: p < q && Storable(p, a) && Storable(q, b) ==> Score(p, a) < Score(q, b)) <==> a < b + SPAN
  {
    forall p, q | p < q && Storable(p, a) && Storable(q, b)
      ensures a < b + SPAN ==> Score(p, a) < Score(q, b)
    {
      ScoreIsExact(p, a);
      ScoreIsExact(q, b);
      assert (q - p) * SPAN >= SPAN;
    }
    assert Storable(0, a) && Storable(1, b);
    ScoreIsExact(0, a);
    ScoreIsExact(1, b);
  }

  /** Messages of one priority score in the order they were pushed. */
  ghost predicate InOrder(p: int) {
    forall n: nat :: 1 <= n && n + 1 < SPAN ==> Score(p, n) < Score(p, n + 1)
  }

  lemma FarBase(p: int)
    ensures p >= 9008 ==> Fl(Fl(p) * SPAN) >= EXACT && Fl(Fl(p) * SPAN) % 2 == 0
    ensures p <= -9008 ==> Fl(Fl(p) * SPAN) < -EXACT - 3 && Fl(Fl(p) * SPAN) % 2 == 0
  {
    hide Fl;
    if p >= 9008 {
      FlMonotone(9008, p);
      FlExact(9008);
      FlEven(Fl(p) * SPAN);
    } else if p <= -9008 {
      FlMonotone(p, -9008);
      FlExact(-9008);
      FlEven(Fl(p) * SPAN);
      FlMonotone(Fl(p) * SPAN, -9008 * SPAN);
      FarBound();
    }
  }

  lemma FarBound()
    ensures Fl(-9008 * SPAN) == -9008 * SPAN
  {
    var x: nat := 9008 * SPAN;
    assert Unit(x / 2) == 1;
    NearestMultiple(4504 * SPAN, 2);
  }

  /** Beyond the exact priorities two neighbouring pushes tie. */
  lemma NeighboursTie(p: int) returns (n: nat)
    requires !(-9007 <= p <= 9006)
    ensures 1 <= n && n + 1 < SPAN && Score(p, n) == Score(p, n + 1)
  {
    hide Fl;
    var base := Fl(Fl(p) * SPAN);
    FarBase(p);
    if p == 9007 {
      FlExact(9007);
      FlExact(9007 * SPAN);
      n := EXACT + 1 - 9007 * SPAN;
    } else {
      n := 3;
    }
    FlExact(n - 1);
    FlExact(n);
    FlExact(n + 1);
    OddTies(base + n);
    if Fl(base + n) == Fl(base + n - 1) {
      n := n - 1;
    }
  }

  /** Pushes of one priority keep their order exactly for priorities from -9007 to 9006. */
  lemma InOrderIff(p: int)
    ensures InOrder(p) <==> -9007 <= p <= 9006
  {
    hide Score;
    if -9007 <= p <= 9006 {
      StorablePriorities(p);
      forall n: nat | 1 <= n && n + 1 < SPAN ensures Score(p, n) < Score(p, n + 1) {
        ScoreIsExact(p, n);
        ScoreIsExact(p, n + 1);
      }
    } else {
      var n := NeighboursTie(p);
    }
  }

  // ----- refinement --------------------------------------------------------------------------------

  function Packed(e: Entry): Member {
    Member(e.message, Score(e.priority, e.at))
  }

  function Members(q: Queue): (z: seq<Member>)
    ensures |z| == |q| && forall i :: 0 <= i < |q| ==> z[i] == Packed(q[i])
  {
    seq(|q|, i requires 0 <= i < |q| => Packed(q[i]))
  }

  predicate Arrivals(q: Queue, n: nat) {
    && (forall i :: 0 <= i < |q| ==> q[i].at <= n)
    && (forall i, j :: 0 <= i < j < |q| ==> q[i].at < q[j].at && q[i].message != q[j].message)
  }

  predicate Stands(z: seq<Member>, q: Queue, n: nat) {
    SortedBy(z, MemberLe) && Arrivals(q, n) && multiset(z) == multiset(Members(q))
  }

  lemma MemberLeOrders()
    ensures TotalPreorder(MemberLe)
  {
    forall a, b ensures MemberLe(a, b) || MemberLe(b, a) {
      StrLeTotal(a.message, b.message);
    }
    forall a, b, c | MemberLe(a, b) && MemberLe(b, c) ensures MemberLe(a, c) {
      if a.score == b.score == c.score {
        StrLeTransitive(a.message, b.message, c.message);
      }
    }
  }

  lemma {:induction false} RemovedCounts(z: seq<Member>, message: string, x: Member)
    ensures multiset(Removed(z, message))[x] == if x.message == message then 0 else multiset(z)[x]
  {
    if z != [] {
      var init, last := z[..|z| - 1], z[|z| - 1];
      assert z == init + [last];
      RemovedCounts(init, message, x);
    }
  }

  lemma {:induction false} RemovedSorted(z: seq<Member>, message: string)
    requires SortedBy(z, MemberLe)
    ensures SortedBy(Removed(z, message), MemberLe)
    ensures forall x :: x in Removed(z, message) ==> x in z
  {
    hide MemberLe;
    if z != [] {
      var init, last := z[..|z| - 1], z[|z| - 1];
      assert z == init + [last];
      RemovedSorted(init, message);
      forall x | x in init ensures MemberLe(x, last) {
        var i :| 0 <= i < |init| && z[i] == x;
      }
    }
  }

  lemma {:induction false} DroppedMembers(q: Queue, message: string)
    ensures Members(Dropped(q, message)) == Removed(Members(q), message)
  {
    if q != [] {
      var init, last := q[..|q| - 1], q[|q| - 1];
      DroppedMembers(init, message);
      assert Members(q)[..|q| - 1] == Members(init);
      assert Members(Dropped(init, message) + [last]) == Members(Dropped(init, message)) + [Packed(last)];
    }
  }

  lemma {:induction false} DroppedArrivals(q: Queue, message: string, n: nat)
    requires Arrivals(q, n)
    ensures Arrivals(Dropped(q, message), n)
    ensures forall e :: e in Dropped(q, message) ==> e in q && e.message != message
  {
    if q != [] {
      var init, last := q[..|q| - 1], q[|q| - 1];
      assert q == init + [last];
      DroppedArrivals(init, message, n);
      forall e | e in init ensures e.at < last.at && e.message != last.message {
        var i :| 0 <= i < |init| && q[i] == e;
      }
    }
  }

  lemma PushArrives(q: Queue, n: nat, e: Entry)
    requires Arrivals(q, n) && e.at == n + 1
    ensures Arrivals(Dropped(q, e.message) + [e], n + 1)
  {
    DroppedArrivals(q, e.message, n);
    var rest := Dropped(q, e.message);
    assert forall i :: 0 <= i < |rest| ==> rest[i] in rest;
  }

  lemma RemovedSame(a: seq<Member>, b: seq<Member>, message: string)
    requires multiset(a) == multiset(b)
    ensures multiset(Removed(a, message)) == multiset(Removed(b, message))
  {
    forall x ensures multiset(Removed(a, message))[x] == multiset(Removed(b, message))[x] {
      RemovedCounts(a, message, x);
      RemovedCounts(b, message, x);
    }
  }

  lemma PushStands(z: seq<Member>, q: Queue, n: nat, message: string, priority: int)
    requires Stands(z, q, n)
    ensures Stands(ZAdd(z, message, Score(priority, n + 1)), Dropped(q, message) + [Entry(message, priority, n + 1)], n + 1)
  {
    hide MemberLe, Score, Arrivals, Removed, Dropped, Insert, SortedBy, TotalPreorder;
    var e := Entry(message, priority, n + 1);
    var rest := Dropped(q, message);
    MemberLeOrders();
    RemovedSorted(z, message);
    DroppedMembers(q, message);
    PushArrives(q, n, e);
    RemovedSame(z, Members(q), message);
    InsertSorts(Removed(z, message), Packed(e), MemberLe);
    assert Members(rest + [e]) == Members(rest) + [Packed(e)];
  }

  /** No entry was pushed so long after another that it could not overtake it. */
  predicate Narrow(q: Queue) {
    forall i, j :: 0 <= i < j < |q| ==> StillFirst(q[i], q[j])
  }

  predicate Exact(q: Queue) {
    forall e :: e in q ==> Storable(e.priority, e.at)
  }

  lemma FrontIsLeast(q: Queue, n: nat, j: nat)
    requires Arrivals(q, n) && Narrow(q) && Exact(q) && j < |q|
    ensures MemberLe(Packed(q[Front(q)]), Packed(q[j]))
  {
    hide Score, Front, Storable;
    var i := Front(q);
    assert q[i] in q && q[j] in q;
    ScoreIsExact(q[i].priority, q[i].at);
    ScoreIsExact(q[j].priority, q[j].at);
    StrLeTotal(q[i].message, q[i].message);
    if j < i {
      assert (q[j].priority - q[i].priority) * SPAN >= SPAN;
      assert StillFirst(q[j], q[i]);
    } else if i < j {
      assert (q[j].priority - q[i].priority) * SPAN >= 0;
    }
  }

  /** The head of the sorted set is the front of the queue. */
  lemma HeadIsFront(z: seq<Member>, q: Queue, n: nat)
    requires Stands(z, q, n) && Narrow(q) && Exact(q) && q != []
    ensures z != [] && z[0] == Packed(q[Front(q)])
  {
    hide Front, Narrow, Exact, Packed;
    SameLength(z, Members(q));
    var i := Front(q);
    assert z[0] in Members(q) && Members(q)[i] in z;
    var j :| 0 <= j < |q| && Members(q)[j] == z[0];
    var k :| 0 <= k < |z| && z[k] == Members(q)[i];
    assert k == 0 || MemberLe(z[0], z[k]);
    FrontIsLeast(q, n, j);
    StrLeTotal(z[0].message, z[k].message);
  }

  lemma PopArrives(q: Queue, n: nat, i: nat)
    requires Arrivals(q, n) && i < |q|
    ensures Arrivals(Without(q, i), n)
  {
    var rest := Without(q, i);
    assert forall k :: 0 <= k < |rest| ==> rest[k] == if k < i then q[k] else q[k + 1];
  }

  lemma PopMembers(q: Queue, i: nat)
    requires i < |q|
    ensures multiset(Members(Without(q, i))) == multiset(Members(q)) - multiset{Packed(q[i])}
  {
    var a, b := Members(q)[..i], Members(q)[i + 1..];
    assert Members(q) == a + [Packed(q[i])] + b;
    assert Members(Without(q, i)) == a + b;
  }

  lemma PopStands(z: seq<Member>, q: Queue, n: nat)
    requires Stands(z, q, n) && Narrow(q) && Exact(q) && q != []
    ensures z != [] && Stands(z[1..], Without(q, Front(q)), n)
  {
    hide MemberLe, Arrivals, Without, Front, Packed, Narrow, Exact;
    HeadIsFront(z, q, n);
    PopArrives(q, n, Front(q));
    PopMembers(q, Front(q));
    assert z == [z[0]] + z[1..];
    assert multiset(z[1..]) == multiset(z) - multiset{z[0]};
  }

  // ----- whole histories ---------------------------------------------------------------------------

  function Run(ops: seq<Op>): State {
    if ops == [] then State(0, map[]) else Next(Run(ops[..|ops| - 1]), ops[|ops| - 1])
  }

  function RefRun(ops: seq<Op>): Reference {
    if ops == [] then Reference(0, map[]) else RefNext(RefRun(ops[..|ops| - 1]), ops[|ops| - 1])
  }

  function Answers(ops: seq<Op>): seq<Answer> {
    if ops == [] then [] else Answers(ops[..|ops| - 1]) + [Reply(Run(ops[..|ops| - 1]), ops[|ops| - 1])]
  }

  function RefAnswers(ops: seq<Op>): seq<Answer> {
    if ops == [] then [] else RefAnswers(ops[..|ops| - 1]) + [RefReply(RefRun(ops[..|ops| - 1]), ops[|ops| - 1])]
  }

  ghost predicate AllStand(s: State, r: Reference) {
    s.n == r.n && forall topic :: Stands(SetOf(s, topic), QueueOf(r, topic), s.n)
  }

  lemma StandsLater(z: seq<Member>, q: Queue, n: nat)
    requires Stands(z, q, n)
    ensures Stands(z, q, n + 1)
  {}

  /** What a pop needs of the queue it takes from. */
  predicate Sound(r: Reference, op: Op) {
    op.Pop? ==> Narrow(QueueOf(r, op.topic)) && Exact(QueueOf(r, op.topic))
  }

  predicate AllSound(ops: seq<Op>) {
    ops == [] || (AllSound(ops[..|ops| - 1]) && Sound(RefRun(ops[..|ops| - 1]), ops[|ops| - 1]))
  }

  lemma StepStands(s: State, r: Reference, op: Op)
    requires AllStand(s, r) && Sound(r, op)
    ensures AllStand(Next(s, op), RefNext(r, op)) && Reply(s, op) == RefReply(r, op)
  {
    hide Stands, ZAdd, Dropped, Without, Narrow, Exact;
    match op
    case Push(topic, message, priority) =>
      forall t ensures Stands(SetOf(Next(s, op), t), QueueOf(RefNext(r, op), t), s.n + 1) {
        if t == topic {
          PushStands(SetOf(s, t), QueueOf(r, t), s.n, message, priority);
        } else {
          StandsLater(SetOf(s, t), QueueOf(r, t), s.n);
        }
      }
    case Pop(topic) =>
      StandsTogether(SetOf(s, topic), QueueOf(r, topic), s.n);
      if QueueOf(r, topic) != [] {
        HeadIsFront(SetOf(s, topic), QueueOf(r, topic), s.n);
        PopStands(SetOf(s, topic), QueueOf(r, topic), s.n);
        forall t ensures Stands(SetOf(Next(s, op), t), QueueOf(RefNext(r, op), t), s.n) {
          assert t != topic ==> Stands(SetOf(s, t), QueueOf(r, t), s.n);
        }
      }
    case Size(topic) => StandsTogether(SetOf(s, topic), QueueOf(r, topic), s.n);
  }

  lemma StandsTogether(z: seq<Member>, q: Queue, n: nat)
    requires Stands(z, q, n)
    ensures |z| == |q|
  {
    SameLength(z, Members(q));
  }

  /** Every reachable set of sorted sets stands for the reference queues. */
  lemma {:induction false} RunStands(ops: seq<Op>)
    requires AllSound(ops)
    ensures AllStand(Run(ops), RefRun(ops))
  {
    hide Stands, Sound;
    if ops != [] {
      RunStands(ops[..|ops| - 1]);
      StepStands(Run(ops[..|ops| - 1]), RefRun(ops[..|ops| - 1]), ops[|ops| - 1]);
    } else {
      NothingStands();
    }
  }

  lemma NothingStands()
    ensures Stands(NO_MEMBERS, NO_ENTRIES, 0)
  {}

  /** The packed queue gives exactly the answers of the reference queue as long as every pop finds exact
      scores and no two messages queued 10^12 pushes apart. */
  lemma {:induction false} SameAnswers(ops: seq<Op>)
    requires AllSound(ops)
    ensures Answers(ops) == RefAnswers(ops)
  {
    hide AllStand, Sound;
    if ops != [] {
      var init := ops[..|ops| - 1];
      SameAnswers(init);
      RunStands(init);
      StepStands(Run(init), RefRun(init), ops[|ops| - 1]);
    }
  }

  predicate ExactPriorities(ops: seq<Op>) {
    forall op :: op in ops && op.Push? ==> -9007 <= op.priority <= 9006
  }

  predicate Early(q: Queue, n: nat) {
    forall e :: e in q ==> e.at <= n && -9007 <= e.priority <= 9006
  }

  lemma {:induction false} DroppedAmong(q: Queue, message: string)
    ensures forall e :: e in Dropped(q, message) ==> e in q && e.message != message
  {
    if q != [] {
      DroppedAmong(q[..|q| - 1], message);
    }
  }

  lemma {:induction false} QueuesEarly(ops: seq<Op>, topic: string)
    requires ExactPriorities(ops)
    ensures Early(QueueOf(RefRun(ops), topic), RefRun(ops).n)
  {
    if ops != [] {
      var init, op := ops[..|ops| - 1], ops[|ops| - 1];
      assert ops == init + [op];
      QueuesEarly(init, topic);
      if op.Push? {
        DroppedAmong(QueueOf(RefRun(init), topic), op.message);
      }
    }
  }

  /** Fewer than 10^12 pushes of priorities -9007 to 9006 meet every condition. */
  lemma {:induction false} SoundBelowSpan(ops: seq<Op>)
    requires RefRun(ops).n < SPAN && ExactPriorities(ops)
    ensures AllSound(ops)
  {
    if ops != [] {
      var init, op := ops[..|ops| - 1], ops[|ops| - 1];
      assert ops == init + [op];
      SoundBelowSpan(init);
      if op.Pop? {
        QueuesEarly(init, op.topic);
        EarlySound(QueueOf(RefRun(init), op.topic), RefRun(init).n);
      }
    }
  }

  lemma EarlySound(q: Queue, n: nat)
    requires Early(q, n) && n < SPAN
    ensures Narrow(q) && Exact(q)
  {
    forall e | e in q ensures Storable(e.priority, e.at) {
      StorablePriorities(e.priority);
    }
    assert forall i :: 0 <= i < |q| ==> q[i] in q;
  }

  // ----- a queue's pushes and all its priorities ---------------------------------------------------

  function Repriced(q: Queue, ps: seq<int>): (r: Queue)
    requires |ps| == |q|
    ensures |r| == |q| && forall i :: 0 <= i < |q| ==> r[i] == Entry(q[i].message, ps[i], q[i].at)
  {
    seq(|q|, i requires 0 <= i < |q| => Entry(q[i].message, ps[i], q[i].at))
  }

  /** A sorted set that stands for the queue with these priorities has its front as the head. */
  ghost predicate HeadRight(q: Queue, n: nat, ps: seq<int>, z: seq<Member>) {
    |ps| == |q| && q != [] && Exact(Repriced(q, ps)) && Stands(z, Repriced(q, ps), n) ==>
      z != [] && z[0] == Packed(Repriced(q, ps)[Front(Repriced(q, ps))])
  }

  /** Whatever the priorities of the queued messages, the head of the sorted set is the front. */
  ghost predicate HeadAlwaysFront(q: Queue, n: nat) {
    forall ps, z :: HeadRight(q, n, ps, z)
  }

  /** The priorities under which only entry `j` should come before entry `i`. */
  function Contest(q: Queue, i: nat, j: nat): seq<int> {
    seq(|q|, k => if k == i then 1 else if k == j then 0 else 2)
  }

  lemma SortedStands(q: Queue, n: nat) returns (z: seq<Member>)
    requires Arrivals(q, n)
    ensures Stands(z, q, n) && |z| == |q| && forall i :: 0 <= i < |q| ==> Packed(q[i]) in z
  {
    hide MemberLe, Packed;
    z := Sorted(Members(q), MemberLe);
    MemberLeOrders();
    SortsStably(Members(q), MemberLe);
    SameLength(z, Members(q));
    assert forall i :: 0 <= i < |q| ==> Members(q)[i] in Members(q);
  }

  lemma HeadLeast(z: seq<Member>, m: Member)
    requires SortedBy(z, MemberLe) && m in z
    ensures z[0] == m || MemberLe(z[0], m)
  {
    var k :| 0 <= k < |z| && z[k] == m;
    assert k == 0 || MemberLe(z[0], z[k]);
  }

  lemma ContestFront(q: Queue, i: nat, j: nat)
    requires i < j < |q|
    ensures Front(Repriced(q, Contest(q, i, j))) == j
  {
    hide Front;
    var r := Repriced(q, Contest(q, i, j));
    assert r[j].priority == 0 && forall k :: 0 <= k < |r| && k != j ==> r[k].priority > 0;
  }

  lemma ContestLost(q: Queue, n: nat, i: nat, j: nat)
    requires Arrivals(q, n) && n <= HALF && i < j < |q| && !StillFirst(q[i], q[j])
    ensures !HeadAlwaysFront(q, n)
  {
    hide Score, StrLe, Front, SortedBy, Sorted;
    var r := Repriced(q, Contest(q, i, j));
    var z := SortedStands(r, n);
    assert Exact(r);
    ContestFront(q, i, j);
    ScoreIsExact(1, q[i].at);
    ScoreIsExact(0, q[j].at);
    HeadLeast(z, Packed(r[i]));
    assert !HeadRight(q, n, Contest(q, i, j), z);
  }

  /** For given push numbers the head is the front under all priorities exactly when no message was
      pushed 10^12 or more pushes after another that is still queued (at 10^12 the names decide). */
  lemma HeadAlwaysFrontIff(q: Queue, n: nat)
    requires Arrivals(q, n) && n <= HALF
    ensures HeadAlwaysFront(q, n) <==> Narrow(q)
  {
    hide HeadRight, StillFirst, Arrivals;
    if Narrow(q) {
      forall ps, z ensures HeadRight(q, n, ps, z) {
        NarrowHead(q, n, ps, z);
      }
    } else {
      var i, j :| 0 <= i < j < |q| && !StillFirst(q[i], q[j]);
      ContestLost(q, n, i, j);
    }
  }

  lemma NarrowHead(q: Queue, n: nat, ps: seq<int>, z: seq<Member>)
    requires Narrow(q)
    ensures HeadRight(q, n, ps, z)
  {
    if |ps| == |q| && q != [] && Exact(Repriced(q, ps)) && Stands(z, Repriced(q, ps), n) {
      RepricedNarrow(q, ps);
      HeadIsFront(z, Repriced(q, ps), n);
    }
  }

  lemma RepricedNarrow(q: Queue, ps: seq<int>)
    requires Narrow(q) && |ps| == |q|
    ensures Narrow(Repriced(q, ps))
  {
    var r := Repriced(q, ps);
    forall i, j | 0 <= i < j < |r| ensures StillFirst(r[i], r[j]) {
      assert StillFirst(q[i], q[j]);
    }
  }

  // ----- histories that go wrong -------------------------------------------------------------------

  /** `k` pushes to another topic. */
  function Fill(k: nat, priority: int): (ops: seq<Op>)
    ensures |ops| == k && forall op :: op in ops ==> op == Push("other", "", priority)
  {
    seq(k, i => Push("other", "", priority))
  }

  lemma Snoc(ops: seq<Op>, op: Op)
    ensures Run(ops + [op]) == Next(Run(ops), op) && RefRun(ops + [op]) == RefNext(RefRun(ops), op)
    ensures Answers(ops + [op]) == Answers(ops) + [Reply(Run(ops), op)]
    ensures RefAnswers(ops + [op]) == RefAnswers(ops) + [RefReply(RefRun(ops), op)]
  {
    assert (ops + [op])[..|ops|] == ops;
  }

  lemma {:induction false} Filled(ops: seq<Op>, k: nat, priority: int)
    ensures var more := ops + Fill(k, priority);
      && Run(more).n == Run(ops).n + k && RefRun(more).n == RefRun(ops).n + k
      && SetOf(Run(more), "here") == SetOf(Run(ops), "here")
      && QueueOf(RefRun(more), "here") == QueueOf(RefRun(ops), "here")
      && (Answers(ops) == RefAnswers(ops) ==> Answers(more) == RefAnswers(more))
  {
    hide ZAdd, Score, Dropped, Run, RefRun, Answers, RefAnswers;
    if k == 0 {
      assert ops + Fill(0, priority) == ops;
    } else {
      Filled(ops, k - 1, priority);
      Snoc(ops + Fill(k - 1, priority), Push("other", "", priority));
      assert ops + Fill(k, priority) == ops + Fill(k - 1, priority) + [Push("other", "", priority)];
    }
  }

  /** After `a` pushes elsewhere "b" is pushed at priority `p`, after `k` more "a" at priority `q`; then
      one pop. */
  function TwoQueued(a: nat, p: int, k: nat, q: int): seq<Op> {
    Fill(a, p) + [Push("here", "b", p)] + Fill(k, p) + [Push("here", "a", q)] + [Pop("here")]
  }

  /** The packed queue lets "b" out if its score is smaller, the reference queue if its priority is not
      larger. */
  lemma TwoQueuedAnswers(a: nat, p: int, k: nat, q: int)
    ensures Answers(TwoQueued(a, p, k, q)) == RefAnswers(TwoQueued(a, p, k, q)) <==>
      (Score(p, a + 1) < Score(q, a + k + 2) <==> p <= q)
    ensures RefRun(TwoQueued(a, p, k, q)).n == a + k + 2
  {
    hide Score, ZAdd, Dropped, Front, Next, RefNext, Answers, RefAnswers, Run, RefRun;
    var before := Fill(a, p) + [Push("here", "b", p)] + Fill(k, p) + [Push("here", "a", q)];
    TwoQueuedState(a, p, k, q);
    PopHere(before);
    assert "a"[0] != "b"[0];
    assert TwoQueued(a, p, k, q) == before + [Pop("here")];
  }

  lemma TwoQueuedStart()
    ensures Run([]).n == 0 == RefRun([]).n && Answers([]) == RefAnswers([])
    ensures SetOf(Run([]), "here") == NO_MEMBERS && QueueOf(RefRun([]), "here") == NO_ENTRIES
  {}

  lemma TwoQueuedState(a: nat, p: int, k: nat, q: int)
    ensures var ops := Fill(a, p) + [Push("here", "b", p)] + Fill(k, p) + [Push("here", "a", q)];
      var b, c := Member("b", Score(p, a + 1)), Member("a", Score(q, a + k + 2));
      && Answers(ops) == RefAnswers(ops) && RefRun(ops).n == a + k + 2
      && SetOf(Run(ops), "here") == (if b.score < c.score then [b, c] else [c, b])
      && QueueOf(RefRun(ops), "here") != []
      && QueueOf(RefRun(ops), "here")[Front(QueueOf(RefRun(ops), "here"))].message == if p <= q then "b" else "a"
  {
    hide Score, ZAdd, Dropped, Front, Next, RefNext, Run, RefRun, Answers, RefAnswers, SetOf, QueueOf, Fill;
    TwoQueuedStart();
    var o0 := [] + Fill(a, p);
    Filled([], a, p);
    PushHere(o0, "b", p);
    var o1 := o0 + [Push("here", "b", p)];
    Filled(o1, k, p);
    PushHere(o1 + Fill(k, p), "a", q);
    TwoMembers(Score(p, a + 1), Score(q, a + k + 2));
    var eb, ea := Entry("b", p, a + 1), Entry("a", q, a + k + 2);
    TwoEntries(eb, ea);
    assert o0 == Fill(a, p);
    assert [] + [eb] == [eb] && [eb] + [ea] == [eb, ea];
  }

  lemma PushHere(ops: seq<Op>, message: string, priority: int)
    ensures var more := ops + [Push("here", message, priority)];
      && Run(more).n == Run(ops).n + 1 && RefRun(more).n == RefRun(ops).n + 1
      && SetOf(Run(more), "here") == ZAdd(SetOf(Run(ops), "here"), message, Score(priority, Run(ops).n + 1))
      && QueueOf(RefRun(more), "here") ==
           Dropped(QueueOf(RefRun(ops), "here"), message) + [Entry(message, priority, RefRun(ops).n + 1)]
      && (Answers(ops) == RefAnswers(ops) ==> Answers(more) == RefAnswers(more))
  {
    hide ZAdd, Score, Dropped;
    Snoc(ops, Push("here", message, priority));
  }

  lemma PopHere(ops: seq<Op>)
    requires Answers(ops) == RefAnswers(ops) && SetOf(Run(ops), "here") != [] && QueueOf(RefRun(ops), "here") != []
    ensures var more, z, q := ops + [Pop("here")], SetOf(Run(ops), "here"), QueueOf(RefRun(ops), "here");
      && (Answers(more) == RefAnswers(more) <==> z[0].message == q[Front(q)].message)
      && RefRun(more).n == RefRun(ops).n
  {
    Snoc(ops, Pop("here"));
    var a, b := Reply(Run(ops), Pop("here")), RefReply(RefRun(ops), Pop("here"));
    assert Answers(ops + [Pop("here")])[|Answers(ops)|] == a;
    assert RefAnswers(ops + [Pop("here")])[|RefAnswers(ops)|] == b;
  }

  lemma OneRemoved(z: seq<Member>, message: string)
    requires |z| == 1 && z[0].message != message
    ensures Removed(z, message) == z
  {
    assert z[..0] == [];
    assert Removed(z, message) == [] + [z[0]];
  }

  lemma OneInserted(z: seq<Member>, x: Member)
    requires |z| == 1
    ensures Insert(z, x, MemberLe) == if MemberLe(z[0], x) then [z[0], x] else [x, z[0]]
  {
    hide MemberLe;
    assert z == [z[0]] && z[..0] == [];
  }

  lemma TwoMembers(s: int, t: int)
    ensures ZAdd(NO_MEMBERS, "b", s) == [Member("b", s)]
    ensures ZAdd([Member("b", s)], "a", t) ==
      if s < t then [Member("b", s), Member("a", t)] else [Member("a", t), Member("b", s)]
  {
    hide Insert, Removed;
    var z := [Member("b", s)];
    NothingThere("b", s);
    assert "a"[0] != "b"[0];
    OneRemoved(z, "a");
    OneInserted(z, Member("a", t));
  }

  lemma NothingThere(message: string, score: int)
    ensures ZAdd(NO_MEMBERS, message, score) == [Member(message, score)]
  {}

  lemma TwoEntries(b: Entry, a: Entry)
    requires b.message == "b" && a.message == "a"
    ensures Dropped(NO_ENTRIES, "b") == [] && Dropped([b], "a") == [b]
    ensures Front([b, a]) == if b.priority <= a.priority then 0 else 1
  {
    assert [b][..0] == [];
    assert Dropped([b], "a") == [] + [b];
  }

  /** A message pushed at priority 0 is overtaken by one of priority 1 that was pushed before it exactly
      when 10^12 or more pushes lie between them. */
  lemma OvertakenIff(k: nat)
    requires k + 2 <= HALF
    ensures Answers(TwoQueued(0, 1, k, 0)) == RefAnswers(TwoQueued(0, 1, k, 0)) <==> k + 1 <= SPAN
  {
    hide Score, TwoQueued, Answers, RefAnswers, RefRun;
    TwoQueuedAnswers(0, 1, k, 0);
    ScoreIsExact(1, 1);
    ScoreIsExact(0, k + 2);
  }

  /** All pushes of the history have priority `p`. */
  predicate OnlyPriority(ops: seq<Op>, p: int) {
    forall op :: op in ops && op.Push? ==> op.priority == p
  }

  ghost predicate AnswersRight(p: int) {
    forall ops :: OnlyPriority(ops, p) && RefRun(ops).n < SPAN ==> Answers(ops) == RefAnswers(ops)
  }

  /** Histories of fewer than 10^12 pushes of one priority are answered right exactly for priorities from
      -9007 to 9006: beyond, rounding makes two messages tie and their names decide. */
  lemma PriorityRightIff(p: int)
    ensures AnswersRight(p) <==> -9007 <= p <= 9006
  {
    hide Score, Answers, RefAnswers, RefRun;
    if -9007 <= p <= 9006 {
      forall ops | OnlyPriority(ops, p) && RefRun(ops).n < SPAN ensures Answers(ops) == RefAnswers(ops) {
        SoundBelowSpan(ops);
        SameAnswers(ops);
      }
    } else {
      var n := NeighboursTie(p);
      TwoQueuedAnswers(n - 1, p, 0, p);
      assert OnlyPriority(TwoQueued(n - 1, p, 0, p), p);
    }
  }

  // ----- one entry per message ---------------------------------------------------------------------

  /** Pushing a message leaves one member for it, at the new score, whether or not it was queued; every
      other member stays. */
  lemma QueuedOnce(ops: seq<Op>, topic: string, message: string, priority: int)
    ensures var before, now := SetOf(Run(ops), topic), SetOf(Run(ops + [Push(topic, message, priority)]), topic);
      var pushed := Member(message, Score(priority, Run(ops).n + 1));
      && multiset(now)[pushed] == 1
      && (forall m :: m in now && m.message == message ==> m == pushed)
      && (forall m: Member :: m.message != message ==> multiset(now)[m] == multiset(before)[m])
  {
    hide Score, ZAdd, Insert, Removed, MemberLe, Answers, RefAnswers, RefNext;
    Snoc(ops, Push(topic, message, priority));
    AddedCounts(SetOf(Run(ops), topic), message, Score(priority, Run(ops).n + 1));
  }

  lemma AddedCounts(z: seq<Member>, message: string, score: int)
    ensures var now := ZAdd(z, message, score);
      && multiset(now)[Member(message, score)] == 1
      && (forall m :: m in now && m.message == message ==> m == Member(message, score))
      && (forall m: Member :: m.message != message ==> multiset(now)[m] == multiset(z)[m])
  {
    hide MemberLe, Insert, Removed;
    var pushed := Member(message, score);
    var now := ZAdd(z, message, score);
    InsertAdds(Removed(z, message), pushed, MemberLe);
    forall m: Member
      ensures multiset(now)[m] == (if m.message == message then 0 else multiset(z)[m]) + if m == pushed then 1 else 0
    {
      RemovedCounts(z, message, m);
    }
    forall m | m in now && m.message == message ensures m == pushed {
      assert m in multiset(now);
    }
  }
}
