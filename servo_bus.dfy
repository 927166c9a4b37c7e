/** The serial servo bus as the ID changer sees it through the ST3215 driver.
    The driver's own code (framing, checksums, register writes) is not part of
    this model: its four operations are given the behaviour the ID changer
    relies on, and every call is recorded in a ghost log so that the
    workflow's safety rules can be stated about the calls it makes. */
module ServoBus {
  import opened Values

  /** A driver call, as recorded in the log. */
  datatype Call =
    | Ping(id: int)              // PingServo(id)
    | Scan                       // ListServos()
    | Write(from: int, to: int)  // ChangeId(from, to)

  /** Number of ID writes in a log. */
  function WriteCount(calls: seq<Call>): (n: nat)
    ensures n <= |calls|
    ensures n == 0 <==> forall i :: 0 <= i < |calls| ==> !calls[i].Write?
  {
    if calls == [] then 0
    else (if calls[0].Write? then 1 else 0) + WriteCount(calls[1..])
  }

  lemma {:induction false} WriteCountAppend(a: seq<Call>, b: seq<Call>)
    ensures WriteCount(a + b) == WriteCount(a) + WriteCount(b)
  {
    if a != [] {
      assert (a + b)[1..] == a[1..] + b;
      WriteCountAppend(a[1..], b);
    } else {
      assert a + b == b;
    }
  }

  /** Logging two batches of calls one after the other. */
  lemma LogAppend(log: seq<Call>, first: seq<Call>, second: seq<Call>)
    ensures (log + first) + second == log + (first + second)
  {
  }

  /** The IDs that answer on the bus. */
  function Support(servos: multiset<int>): (ids: set<int>)
    ensures forall id :: id in ids <==> id in servos
  {
    set id | id in servos
  }

  /** No two units on the bus share an ID. */
  ghost predicate UniqueIds(servos: multiset<int>) {
    forall id :: servos[id] <= 1
  }

  /** The bus after an acknowledged ID write addressed to `from`: every unit
      that answered to `from` now answers to `to`; all other units keep
      their IDs. */
  function Rename(servos: multiset<int>, from: int, to: int): (r: multiset<int>)
    ensures |r| == |servos|
    ensures from != to ==> from !in r
    ensures servos[from] > 0 ==> to in r
    ensures forall id :: id != from && id != to ==> r[id] == servos[id]
  {
    var cleared := servos[from := 0];
    cleared[to := cleared[to] + servos[from]]
  }

  /** A duplicate-free sequence. */
  predicate Distinct(ids: seq<int>) {
    forall i, j :: 0 <= i < j < |ids| ==> ids[i] != ids[j]
  }

  /** A non-empty set has a member. */
  lemma HasMember(ids: set<int>)
    requires ids != {}
    ensures exists id :: id in ids
  {
    if forall id :: id !in ids {
      assert false;
    }
  }

  /** Lists a finite set of IDs without repetition. */
  method EnumerateIds(ids: set<int>) returns (list: seq<int>)
    ensures Distinct(list)
    ensures forall id :: id in list <==> id in ids
  {
    var rest := ids;
    list := [];
    while rest != {}
      invariant rest <= ids
      invariant Distinct(list)
      invariant forall id :: id in list <==> id in ids && id !in rest
      decreases rest
    {
      HasMember(rest);
      var next :| next in rest;
      list := list + [next];
      rest := rest - {next};
    }
  }

  /** A duplicate-free sequence has as many elements as the set of its
      elements. */
  lemma {:induction false} DistinctCard(list: seq<int>)
    requires Distinct(list)
    ensures |set id | id in list| == |list|
  {
    if list != [] {
      var tail := list[1..];
      assert Distinct(tail);
      DistinctCard(tail);
      assert (set id | id in list) == {list[0]} + (set id | id in tail);
      assert list[0] !in (set id | id in tail);
    }
  }

  /** What the surroundings fix for one run: the units present, whether the
      port opens, what the driver answers to an ID write (None for success,
      as `ChangeId` does, or an error detail), and whether an acknowledged
      write actually takes effect on the servo. */
  datatype World = World(servos: multiset<int>, openOk: bool, writeReply: Option<string>,
                         writeApplies: bool)

  /** The units after an acknowledged write from `from` to `to`. */
  function Acknowledged(w: World, from: int, to: int): multiset<int> {
    if w.writeApplies then Rename(w.servos, from, to) else w.servos
  }

  class Bus {
    /** The current ID of each unit on the bus (one entry per unit). */
    var servos: multiset<int>
    /** Whether opening the serial port succeeds. */
    const openOk: bool
    /** The driver's answer to every ID write. */
    const writeReply: Option<string>
    /** Whether an acknowledged ID write takes effect. */
    const writeApplies: bool
    /** Whether the port has been opened. */
    var isOpen: bool
    /** Every driver call made so far, in order. */
    ghost var calls: seq<Call>

    constructor (servos: multiset<int>, openOk: bool, writeReply: Option<string>, writeApplies: bool)
      ensures this.servos == servos && this.openOk == openOk && this.writeReply == writeReply
      ensures this.writeApplies == writeApplies
      ensures !isOpen && calls == []
    {
      this.servos := servos;
      this.openOk := openOk;
      this.writeReply := writeReply;
      this.writeApplies := writeApplies;
      isOpen := false;
      calls := [];
    }

    ghost function State(): World
      reads this
    {
      World(servos, openOk, writeReply, writeApplies)
    }

    /** Constructing the driver object on the configured port. */
    method Open() returns (ok: bool)
      modifies this`isOpen
      ensures ok == openOk && isOpen == ok
    {
      isOpen := openOk;
      ok := isOpen;
    }

    /** `PingServo(id)`: whether some unit answers to `id`. */
    method PingServo(id: int) returns (found: bool)
      requires isOpen
      modifies this`calls
      ensures found <==> id in servos
      ensures calls == old(calls) + [Ping(id)]
    {
      found := id in servos;
      calls := calls + [Ping(id)];
    }

    /** `ListServos()`: each answering ID once, in an order the driver picks. */
    method ListServos() returns (ids: seq<int>)
      requires isOpen
      modifies this`calls
      ensures Distinct(ids)
      ensures forall id :: id in ids <==> id in servos
      ensures calls == old(calls) + [Scan]
    {
      ids := EnumerateIds(Support(servos));
      calls := calls + [Scan];
    }

    /** `ChangeId(from, to)`: None when the write is acknowledged, in which
        case the units at `from` now answer to `to` if the write takes effect;
        otherwise the error detail, and nothing changed. */
    method ChangeId(from: int, to: int) returns (reply: Option<string>)
      requires isOpen
      modifies this`servos, this`calls
      ensures reply == writeReply
      ensures servos == if reply.None? && writeApplies then Rename(old(servos), from, to) else old(servos)
      ensures calls == old(calls) + [Write(from, to)]
    {
      reply := writeReply;
      if reply.None? && writeApplies {
        servos := Rename(servos, from, to);
      }
      calls := calls + [Write(from, to)];
    }
  }
}
