/** The position-based route index: every known node with its position and the direct neighbours
    through which it is known (node/internal/network/routing/routing_2d.go). */
module Routing2D {
  import opened NodeIds
  import opened Ring

  const REQUIRE_BOTH := 3

  datatype Info = Info(pos: Pos, roots: set<Id>)

  type Index = map<Id, Info>

  /** What each live source last advertised, itself included and the local node excluded. */
  type Adverts = map<Id, set<Id>>

  // ---------------------------------------------------------------- what the index means

  /** Each root is itself an entry with itself as root, no entry is without a root, and the local
      node is not in the index. */
  ghost predicate Closed(local: Id, index: Index) {
    && local !in index
    && forall n :: n in index ==> index[n].roots != {} && forall r :: r in index[n].roots ==> Direct(index, r)
  }

  predicate Direct(index: Index, r: Id) {
    r in index && r in index[r].roots
  }

  /** Roots come from advertisements. */
  ghost predicate Sound(index: Index, adv: Adverts) {
    forall n, r :: n in index && r in index[n].roots ==> r in adv && n in adv[r]
  }

  /** All advertisements are indexed. */
  ghost predicate Complete(index: Index, adv: Adverts) {
    forall n, r :: r in adv && n in adv[r] ==> n in index && r in index[n].roots
  }

  ghost predicate GoodAdverts(local: Id, adv: Adverts) {
    forall r :: r in adv ==> r in adv[r] && local !in adv[r]
  }

  // ---------------------------------------------------------------- connection updates

  function Restrict(index: Index, connections: set<Id>): Index {
    map n | n in index && index[n].roots * connections != {} :: index[n].(roots := index[n].roots * connections)
  }

  function RestrictAdverts(adv: Adverts, connections: set<Id>): Adverts {
    map r | r in adv && r in connections :: adv[r]
  }

  lemma RestrictClosed(local: Id, index: Index, connections: set<Id>)
    requires Closed(local, index)
    ensures Closed(local, Restrict(index, connections))
  {
    var index' := Restrict(index, connections);
    forall n, r | n in index' && r in index'[n].roots ensures Direct(index', r) {
      assert Direct(index, r);
      assert r in index[r].roots * connections;
    }
  }

  lemma RestrictComplete(index: Index, adv: Adverts, connections: set<Id>)
    requires Complete(index, adv)
    ensures Complete(Restrict(index, connections), RestrictAdverts(adv, connections))
  {
    forall n, r | r in RestrictAdverts(adv, connections) && n in adv[r]
      ensures n in Restrict(index, connections) && r in Restrict(index, connections)[n].roots
    {
      assert r in index[n].roots * connections;
    }
  }

  lemma RestrictSound(index: Index, adv: Adverts, connections: set<Id>)
    requires Sound(index, adv)
    ensures Sound(Restrict(index, connections), RestrictAdverts(adv, connections))
  {}

  /** Dropping the nodes that are no longer connected drops exactly what only they advertised. */
  lemma RestrictKeeps(local: Id, index: Index, adv: Adverts, connections: set<Id>)
    requires Closed(local, index) && GoodAdverts(local, adv) && Sound(index, adv)
    ensures Closed(local, Restrict(index, connections))
    ensures GoodAdverts(local, RestrictAdverts(adv, connections))
    ensures Sound(Restrict(index, connections), RestrictAdverts(adv, connections))
    ensures Complete(index, adv) ==> Complete(Restrict(index, connections), RestrictAdverts(adv, connections))
  {
    hide Closed, Sound, Complete, Restrict;
    RestrictClosed(local, index, connections);
    RestrictSound(index, adv, connections);
    if Complete(index, adv) { RestrictComplete(index, adv, connections); }
  }

  // ---------------------------------------------------------------- routing packets

  /** Roots a node gets from the packet of `src`. */
  function WithSource(index: Index, src: Id, pos: Pos): Index {
    index[src := Info(pos, (if src in index then index[src].roots else {}) + {src})]
  }

  /** One listed node: a new one is entered if its position is given; a known one gets the source as a
      root, and its position is taken unless it is a direct neighbour. */
  function WithRecord(index: Index, src: Id, n: Id, pos: Option<Pos>): Index {
    if n !in index then
      if pos.None? then index else index[n := Info(pos.value, {src})]
    else
      var i := index[n].(roots := index[n].roots + {src});
      index[n := if pos.Some? && n !in i.roots then i.(pos := pos.value) else i]
  }

  function WithRecords(index: Index, local: Id, src: Id, records: map<Id, Option<Pos>>): Index {
    map n | n in index.Keys + (set k | k in records && k != local && records[k].Some?) ::
      if n in records && n != local then
        (if n in index then
           var i := index[n].(roots := index[n].roots + {src});
           if records[n].Some? && n !in i.roots then i.(pos := records[n].value) else i
         else Info(records[n].value, {src}))
      else index[n]
  }

  /** Nodes no longer listed lose the source as a root. */
  function WithoutUnlisted(index: Index, src: Id, listed: set<Id>): Index {
    map n | n in index && (n == src || n in listed || src !in index[n].roots || index[n].roots - {src} != {}) ::
      if n == src || n in listed then index[n] else index[n].(roots := index[n].roots - {src})
  }

  function Received(index: Index, local: Id, src: Id, pos: Pos, records: map<Id, Option<Pos>>): Index {
    WithoutUnlisted(WithRecords(WithSource(index, src, pos), local, src, records), src, records.Keys)
  }

  /** A packet whose stages change something changes the index: no stage undoes another. */
  lemma ReceivedChanges(index: Index, local: Id, src: Id, pos: Pos, records: map<Id, Option<Pos>>)
    requires src != local
    ensures var index1 := WithSource(index, src, pos);
            var index2 := WithRecords(index1, local, src, records);
            var index3 := WithoutUnlisted(index2, src, records.Keys);
            index3 == index <==> index1 == index && index2 == index1 && index3 == index2
  {
    var index1 := WithSource(index, src, pos);
    var index2 := WithRecords(index1, local, src, records);
    var index3 := WithoutUnlisted(index2, src, records.Keys);
    if index3 == index {
      assert index2[src] == index1[src] && index3[src] == index2[src];
      assert index1 == index;
      forall n | n in index2 ensures n in index1 && index2[n] == index1[n] {
        if n in records { assert index3[n] == index2[n]; }
      }
      assert index2 == index1;
    }
  }

  function AdvertsAfter(adv: Adverts, local: Id, src: Id, listed: set<Id>): Adverts {
    adv[src := listed - {local} + {src}]
  }

  /** Entries of the index after a packet, one by one. */
  lemma ReceivedAt(index: Index, local: Id, src: Id, pos: Pos, records: map<Id, Option<Pos>>, n: Id)
    requires Closed(local, index) && src != local
    ensures var index' := Received(index, local, src, pos, records);
            var before := if n in index then index[n].roots else {};
            if n == src then n in index' && index'[n].roots == before + {src}
            else if n in records && n != local then
              (n in index' <==> n in index || records[n].Some?) && (n in index' ==> index'[n].roots == before + {src})
            else
              (n in index' <==> before - {src} != {}) && (n in index' ==> index'[n].roots == before - {src})
  {
    if n == local { assert n !in index; }
  }

  /** The position a packet gives for a node: the source's own, and of a listed node the listed one unless
      it is a direct neighbour, which speaks for itself. */
  function Given(index: Index, local: Id, src: Id, pos: Pos, records: map<Id, Option<Pos>>, n: Id): Option<Pos> {
    if n == src then Some(pos)
    else if n in records && n != local && !Direct(index, n) then records[n]
    else None
  }

  /** After a packet an entry is at the position given for it, or where it was. */
  lemma ReceivedPosition(index: Index, local: Id, src: Id, pos: Pos, records: map<Id, Option<Pos>>, n: Id)
    requires Closed(local, index) && src != local && n in Received(index, local, src, pos, records)
    ensures var given := Given(index, local, src, pos, records, n);
            if given.Some? then Received(index, local, src, pos, records)[n].pos == given.value
            else n in index && Received(index, local, src, pos, records)[n].pos == index[n].pos
  {}

  lemma ReceivedDirect(local: Id, index: Index, src: Id, pos: Pos, records: map<Id, Option<Pos>>, n: Id, r: Id)
    requires Closed(local, index) && src != local
    requires var index' := Received(index, local, src, pos, records); n in index' && r in index'[n].roots
    ensures Direct(Received(index, local, src, pos, records), r)
  {
    hide Received;
    ReceivedAt(index, local, src, pos, records, n);
    ReceivedAt(index, local, src, pos, records, r);
    if r != src {
      assert n in index && r in index[n].roots;
      assert Direct(index, r);
      assert r in index[r].roots - {src};
    }
  }

  lemma ReceivedClosed(local: Id, index: Index, src: Id, pos: Pos, records: map<Id, Option<Pos>>)
    requires Closed(local, index) && src != local
    ensures Closed(local, Received(index, local, src, pos, records))
  {
    hide Received;
    var index' := Received(index, local, src, pos, records);
    ReceivedAt(index, local, src, pos, records, local);
    forall n, r | n in index' && r in index'[n].roots ensures Direct(index', r) {
      ReceivedDirect(local, index, src, pos, records, n, r);
    }
    forall n | n in index' ensures index'[n].roots != {} {
      ReceivedAt(index, local, src, pos, records, n);
    }
  }

  /** A packet keeps the index closed and sound, whatever positions it carries. */
  lemma ReceivedKeeps(local: Id, index: Index, adv: Adverts, src: Id, pos: Pos, records: map<Id, Option<Pos>>)
    requires Closed(local, index) && GoodAdverts(local, adv) && Sound(index, adv) && src != local
    ensures Closed(local, Received(index, local, src, pos, records))
    ensures GoodAdverts(local, AdvertsAfter(adv, local, src, records.Keys))
    ensures Sound(Received(index, local, src, pos, records), AdvertsAfter(adv, local, src, records.Keys))
  {
    hide Received;
    var index', adv' := Received(index, local, src, pos, records), AdvertsAfter(adv, local, src, records.Keys);
    ReceivedClosed(local, index, src, pos, records);
    forall n, r | n in index' && r in index'[n].roots ensures r in adv' && n in adv'[r] {
      ReceivedAt(index, local, src, pos, records, n);
      if r != src { assert n in index && r in index[n].roots; }
    }
  }

  /** A packet keeps the index complete exactly when it gives a position for every listed node that
      was not known before. */
  lemma ReceivedCompleteIff(local: Id, index: Index, adv: Adverts, src: Id, pos: Pos, records: map<Id, Option<Pos>>)
    requires Closed(local, index) && GoodAdverts(local, adv) && Sound(index, adv) && Complete(index, adv)
    requires src != local
    ensures Complete(Received(index, local, src, pos, records), AdvertsAfter(adv, local, src, records.Keys)) <==>
            forall n :: n in records && n != local && n != src && n !in index ==> records[n].Some?
  {
    hide Received;
    var index', adv' := Received(index, local, src, pos, records), AdvertsAfter(adv, local, src, records.Keys);
    if forall n :: n in records && n != local && n != src && n !in index ==> records[n].Some? {
      forall n, r | r in adv' && n in adv'[r] ensures n in index' && r in index'[n].roots {
        ReceivedAt(index, local, src, pos, records, n);
        if r != src { assert r in index[n].roots - {src}; }
      }
    } else {
      var n :| n in records && n != local && n != src && n !in index && records[n].None?;
      ReceivedAt(index, local, src, pos, records, n);
      assert src in adv' && n in adv'[src];
    }
  }

  // ---------------------------------------------------------------- every run

  datatype Step = Connections(connections: set<Id>) | Packet(src: Id, pos: Pos, records: map<Id, Option<Pos>>)

  datatype State = State(index: Index, adv: Adverts)

  ghost function Apply(local: Id, s: State, step: Step): State {
    match step
    case Connections(c) => State(Restrict(s.index, c), RestrictAdverts(s.adv, c))
    case Packet(src, pos, records) =>
      State(Received(s.index, local, src, pos, records), AdvertsAfter(s.adv, local, src, records.Keys))
  }

  ghost predicate Run(local: Id, tr: seq<State>, steps: seq<Step>) {
    && |tr| == |steps| + 1 && tr[0] == State(map[], map[])
    && forall k :: 0 <= k < |steps| ==>
         tr[k + 1] == Apply(local, tr[k], steps[k]) && (steps[k].Packet? ==> steps[k].src != local)
  }

  ghost predicate AllPositioned(steps: seq<Step>) {
    forall k :: 0 <= k < |steps| && steps[k].Packet? ==> forall n :: n in steps[k].records ==> steps[k].records[n].Some?
  }

  /** In every state of every run the index is closed and its roots come from what live sources last
      advertised; when all records carry positions it is the exact inverse of those advertisements. */
  lemma {:induction false} RunKeepsIndex(local: Id, tr: seq<State>, steps: seq<Step>, k: nat)
    requires Run(local, tr, steps) && k < |tr|
    ensures Closed(local, tr[k].index) && GoodAdverts(local, tr[k].adv) && Sound(tr[k].index, tr[k].adv)
    ensures AllPositioned(steps) ==> Complete(tr[k].index, tr[k].adv)
  {
    hide Closed, GoodAdverts, Sound, Complete, Restrict, Received, AdvertsAfter, RestrictAdverts;
    if k == 0 {
      EmptyIndex(local);
    } else {
      RunKeepsIndex(local, tr, steps, k - 1);
      var s := tr[k - 1];
      assert tr[k - 1 + 1] == Apply(local, s, steps[k - 1]);
      match steps[k - 1]
      case Connections(c) => RestrictKeeps(local, s.index, s.adv, c);
      case Packet(src, pos, records) =>
        ReceivedKeeps(local, s.index, s.adv, src, pos, records);
        if AllPositioned(steps) {
          assert forall n :: n in records ==> records[n].Some?;
          ReceivedCompleteIff(local, s.index, s.adv, src, pos, records);
        }
    }
  }

  /** Step `j` is the last one of the first `k` that gives a position for `n`. */
  ghost predicate LastGiver(local: Id, tr: seq<State>, steps: seq<Step>, k: nat, n: Id, j: nat)
    requires |tr| == |steps| + 1 && k <= |steps|
  {
    && j < k && Gives(local, tr[j].index, steps[j], n).Some?
    && forall i :: j < i < k ==> Gives(local, tr[i].index, steps[i], n).None?
  }

  function Gives(local: Id, index: Index, step: Step, n: Id): Option<Pos> {
    match step
    case Connections(_) => None
    case Packet(src, pos, records) => Given(index, local, src, pos, records, n)
  }

  /** In every state of every run each entry is at the position given for it last; a direct neighbour at
      the one in its own latest packet. */
  lemma {:induction false} RunPositions(local: Id, tr: seq<State>, steps: seq<Step>, k: nat, n: Id)
    requires Run(local, tr, steps) && k < |tr| && n in tr[k].index
    ensures exists j: nat :: LastGiver(local, tr, steps, k, n, j) &&
                        Gives(local, tr[j].index, steps[j], n) == Some(tr[k].index[n].pos) &&
                        (Direct(tr[k].index, n) ==> steps[j].Packet? && steps[j].src == n)
  {
    hide Closed, GoodAdverts, Sound, Complete, Restrict, Received, AdvertsAfter, RestrictAdverts, Gives;
    if k == 0 {
      assert false;
    } else {
      var s := tr[k - 1];
      RunKeepsIndex(local, tr, steps, k - 1);
      assert tr[k - 1 + 1] == Apply(local, s, steps[k - 1]);
      StepPosition(local, s, steps[k - 1], n);
      if Gives(local, s.index, steps[k - 1], n).Some? {
        assert LastGiver(local, tr, steps, k, n, k - 1);
      } else {
        RunPositions(local, tr, steps, k - 1, n);
        var j: nat :| LastGiver(local, tr, steps, k - 1, n, j) &&
                 Gives(local, tr[j].index, steps[j], n) == Some(s.index[n].pos) &&
                 (Direct(s.index, n) ==> steps[j].Packet? && steps[j].src == n);
        assert LastGiver(local, tr, steps, k, n, j);
      }
    }
  }

  lemma StepPosition(local: Id, s: State, step: Step, n: Id)
    requires Closed(local, s.index) && (step.Packet? ==> step.src != local) && n in Apply(local, s, step).index
    ensures var given, index' := Gives(local, s.index, step, n), Apply(local, s, step).index;
            if given.Some? then step.Packet? && index'[n].pos == given.value && (Direct(index', n) ==> step.src == n)
            else n in s.index && index'[n].pos == s.index[n].pos && (Direct(index', n) ==> Direct(s.index, n))
  {
    hide Closed, Received, AdvertsAfter, RestrictAdverts;
    if step.Packet? {
      ReceivedPosition(s.index, local, step.src, step.pos, step.records, n);
      ReceivedAt(s.index, local, step.src, step.pos, step.records, n);
    }
  }

  lemma EmptyIndex(local: Id)
    ensures Closed(local, map[]) && GoodAdverts(local, map[]) && Sound(map[], map[]) && Complete(map[], map[])
  {}

  // ---------------------------------------------------------------- the object

  class Node {
    const local: Id
    const distance: (Pos, Pos) -> real
    var position: Pos
    var infos: Index

    ghost predicate Valid()
      reads this
    {
      Closed(local, infos)
    }

    constructor (local: Id, distance: (Pos, Pos) -> real, position: Pos)
      ensures Valid() && this.local == local && this.distance == distance && this.position == position && infos == map[]
    {
      this.local, this.distance, this.position, infos := local, distance, position, map[];
    }

    /** Drops the roots that are no longer connected and the entries left without. Action is required
        when an entry went and the plane neighbours, chosen from the entries, are found changed. */
    method UpdateNodeConnections(connections: set<Id>, neighborsChanged: bool) returns (action: int)
      requires Valid()
      modifies this`infos
      ensures Valid() && infos == Restrict(old(infos), connections)
      ensures action == if neighborsChanged && infos.Keys != old(infos).Keys then REQUIRE_BOTH else 0
    {
      hide Closed, Restrict;
      RestrictClosed(local, infos, connections);
      HaveRoots(local, infos);
      var index, updated := DropDisconnected(infos, connections);
      infos := index;
      action := if updated && neighborsChanged then REQUIRE_BOTH else 0;
    }

    static lemma HaveRoots(local: Id, index: Index)
      requires Closed(local, index)
      ensures forall n :: n in index ==> index[n].roots != {}
    {}

    static method DropDisconnected(before: Index, connections: set<Id>) returns (index: Index, updated: bool)
      requires forall n :: n in before ==> before[n].roots != {}
      ensures index == Restrict(before, connections)
      ensures updated <==> index.Keys != before.Keys
    {
      index, updated := before, false;
      var todo := before.Keys;
      while todo != {}
        invariant todo <= index.Keys <= before.Keys
        invariant forall n :: n in todo ==> index[n] == before[n]
        invariant forall n :: n in before && n !in todo ==> (n in index <==> before[n].roots * connections != {})
        invariant forall n :: n in index && n !in todo ==>
                    index[n] == before[n].(roots := before[n].roots * connections)
        invariant updated <==> index.Keys != before.Keys
      {
        var n :| n in todo;
        var kept := KeepConnected(index[n].roots, connections);
        if kept == {} {
          index := index - {n};
          updated := true;
        } else {
          index := index[n := index[n].(roots := kept)];
        }
        todo := todo - {n};
      }
    }

    static method KeepConnected(roots: set<Id>, connections: set<Id>) returns (kept: set<Id>)
      ensures kept == roots * connections
    {
      kept := roots;
      var todo := roots;
      while todo != {}
        invariant todo <= kept <= roots
        invariant forall r :: r in roots && r !in todo ==> (r in kept <==> r in connections)
      {
        var r :| r in todo;
        if r !in connections {
          kept := kept - {r};
        }
        todo := todo - {r};
      }
    }

    /** As for connections, action is required when the index changed and the plane neighbours did. */
    method RecvRoutingPacket(src: Id, pos: Pos, records: map<Id, Option<Pos>>, neighborsChanged: bool)
      returns (action: int)
      requires Valid() && src != local
      modifies this`infos
      ensures Valid() && infos == Received(old(infos), local, src, pos, records)
      ensures forall n :: n in infos ==>
                var given := Given(old(infos), local, src, pos, records, n);
                if given.Some? then infos[n].pos == given.value
                else n in old(infos) && infos[n].pos == old(infos)[n].pos
      ensures action == if neighborsChanged && infos != old(infos) then REQUIRE_BOTH else 0
    {
      hide Closed, WithSource, WithRecords, WithoutUnlisted;
      ReceivedClosed(local, infos, src, pos, records);
      forall n | n in Received(infos, local, src, pos, records)
        ensures var given := Given(infos, local, src, pos, records, n);
                if given.Some? then Received(infos, local, src, pos, records)[n].pos == given.value
                else n in infos && Received(infos, local, src, pos, records)[n].pos == infos[n].pos
      {
        ReceivedPosition(infos, local, src, pos, records, n);
      }
      ReceivedChanges(infos, local, src, pos, records);
      var index1 := WithSource(infos, src, pos);
      var updated := index1 != infos;
      var index2, changed := ApplyRecords(index1, local, src, records);
      var index3, dropped := DropUnlisted(index2, src, records.Keys);
      infos := index3;
      action := if (updated || changed || dropped) && neighborsChanged then REQUIRE_BOTH else 0;
    }

    static method ApplyRecords(before: Index, local: Id, src: Id, records: map<Id, Option<Pos>>)
      returns (index: Index, updated: bool)
      ensures index == WithRecords(before, local, src, records)
      ensures updated <==> index != before
    {
      hide WithRecord, WithRecords;
      index := before;
      var todo := records.Keys;
      ghost var seen: map<Id, Option<Pos>> := map[];
      NoRecords(before, local, src);
      updated := false;
      while todo != {}
        invariant todo <= records.Keys && seen == records - todo
        invariant index == WithRecords(before, local, src, seen)
        invariant updated <==> index != before
      {
        var n :| n in todo;
        RecordStep(before, local, src, seen, n, records[n]);
        if n != local {
          var next := WithRecord(index, src, n, records[n]);
          RecordKept(before, local, src, seen, n, records[n]);
          updated := updated || next != index;
          index := next;
        }
        seen := seen[n := records[n]];
        todo := todo - {n};
        assert seen == records - todo;
      }
      assert records - todo == records;
    }

    static lemma NoRecords(before: Index, local: Id, src: Id)
      ensures WithRecords(before, local, src, map[]) == before
    {}

    /** A later record does not undo an earlier one. */
    static lemma RecordKept(before: Index, local: Id, src: Id, seen: map<Id, Option<Pos>>, n: Id, pos: Option<Pos>)
      requires n !in seen
      ensures var index := WithRecords(before, local, src, seen);
              WithRecord(index, src, n, pos) == before <==> WithRecord(index, src, n, pos) == index && index == before
    {
      var index := WithRecords(before, local, src, seen);
      if WithRecord(index, src, n, pos) == before {
        forall k | k in index ensures k in before && index[k] == before[k] {
          if k != n { assert WithRecord(index, src, n, pos)[k] == index[k]; }
        }
        assert index == before;
      }
    }

    static lemma RecordStep(before: Index, local: Id, src: Id, seen: map<Id, Option<Pos>>, n: Id, pos: Option<Pos>)
      requires n !in seen
      ensures WithRecords(before, local, src, seen[n := pos]) ==
              if n == local then WithRecords(before, local, src, seen)
              else WithRecord(WithRecords(before, local, src, seen), src, n, pos)
    {}

    static method DropUnlisted(before: Index, src: Id, listed: set<Id>) returns (index: Index, updated: bool)
      ensures index == WithoutUnlisted(before, src, listed)
      ensures updated <==> index != before
    {
      index, updated := before, false;
      var todo := before.Keys;
      while todo != {}
        invariant todo <= index.Keys <= before.Keys
        invariant forall n :: n in todo ==> index[n] == before[n]
        invariant forall n :: n in before && n !in todo ==>
                    if n == src || n in listed || src !in before[n].roots then n in index && index[n] == before[n]
                    else (n in index <==> before[n].roots - {src} != {}) &&
                         (n in index ==> index[n] == before[n].(roots := before[n].roots - {src}))
        invariant !updated ==> index == before
        invariant updated ==> exists n :: n in before && n !in todo && (n !in index || index[n] != before[n])
      {
        var n :| n in todo;
        if n != src && src in index[n].roots && n !in listed {
          index := index[n := index[n].(roots := index[n].roots - {src})];
          if index[n].roots == {} {
            index := index - {n};
          }
          updated := true;
          assert n !in index || index[n] != before[n];
        }
        todo := todo - {n};
      }
      assert forall n :: n in before && src !in before[n].roots ==> before[n].roots - {src} == before[n].roots;
    }

    ghost predicate Nearest(dst: Pos, c: Id)
      reads this
    {
      c in infos && forall n :: n in infos ==> distance(infos[c].pos, dst) <= distance(infos[n].pos, dst)
    }

    /** `c` is a nearest known node, closer than this one, and `h` the way to it: itself when it is a
        direct neighbour or no node that advertises it is below the limit, otherwise a nearest one of
        those. */
    ghost predicate Chosen(dst: Pos, limit: real, c: Id, h: Id)
      reads this
    {
      && Nearest(dst, c) && distance(infos[c].pos, dst) < distance(position, dst)
      && if Direct(infos, c) || !Below(infos[c].roots, dst, limit) then h == c else NearestIn(infos[c].roots, dst, h)
    }

    ghost predicate Below(roots: set<Id>, dst: Pos, limit: real)
      reads this
    {
      exists r :: r in roots && r in infos && distance(infos[r].pos, dst) < limit
    }

    ghost predicate NearestIn(roots: set<Id>, dst: Pos, h: Id)
      reads this
    {
      && h in roots && h in infos
      && forall r :: r in roots && r in infos ==> distance(infos[h].pos, dst) <= distance(infos[r].pos, dst)
    }

    /** Greedy choice: nothing when no known node is closer than this one; otherwise, with distances
        below the largest float `limit`, a direct neighbour: the nearest known node itself or the nearest
        of those that advertise it. No entry that the search looks up is missing. */
    method GetNextStep(dst: Pos, limit: real) returns (hop: Option<Id>)
      requires Valid()
      ensures hop.None? <==> forall n :: n in infos ==> distance(infos[n].pos, dst) >= distance(position, dst)
      ensures hop.Some? ==> hop.value in infos && hop.value != local && exists c :: Chosen(dst, limit, c, hop.value)
      ensures hop.Some? && (forall n :: n in infos ==> distance(infos[n].pos, dst) < limit) ==> Direct(infos, hop.value)
    {
      hide Closed, Nearest, NearestIn;
      var candidate := NearestKnown(dst);
      if candidate.None? {
        return None;
      }
      var c := candidate.value;
      RootsAreDirect(local, infos, c);
      if c in infos[c].roots {
        assert Chosen(dst, limit, c, c);
        return Some(c);
      }
      var h := NearestRoot(infos[c].roots, dst, limit);
      assert Chosen(dst, limit, c, if h.Some? then h.value else c);
      hop := Some(if h.Some? then h.value else c);
    }

    static lemma RootsAreDirect(local: Id, index: Index, c: Id)
      requires Closed(local, index) && c in index
      ensures index[c].roots != {} && c != local
      ensures forall r :: r in index[c].roots ==> Direct(index, r) && r != local
    {
      assert forall r :: r in index[c].roots ==> Direct(index, r);
    }

    method NearestKnown(dst: Pos) returns (c: Option<Id>)
      ensures c.None? <==> forall n :: n in infos ==> distance(infos[n].pos, dst) >= distance(position, dst)
      ensures c.Some? ==> c.value in infos && Nearest(dst, c.value)
      ensures c.Some? ==> distance(infos[c.value].pos, dst) < distance(position, dst)
    {
      c := None;
      var min := distance(position, dst);
      var todo := infos.Keys;
      while todo != {}
        invariant todo <= infos.Keys
        invariant c.None? ==> min == distance(position, dst)
        invariant c.Some? ==> c.value in infos && min == distance(infos[c.value].pos, dst) < distance(position, dst)
        invariant forall n :: n in infos && n !in todo ==> min <= distance(infos[n].pos, dst)
      {
        var n :| n in todo;
        var d := distance(infos[n].pos, dst);
        if d < min {
          min := d;
          c := Some(n);
        }
        todo := todo - {n};
      }
    }

    method NearestRoot(roots: set<Id>, dst: Pos, limit: real) returns (best: Option<Id>)
      requires forall r :: r in roots ==> r in infos
      ensures best.Some? <==> Below(roots, dst, limit)
      ensures best.Some? ==> best.value in roots && NearestIn(roots, dst, best.value)
    {
      best := None;
      var min := limit;
      var todo := roots;
      while todo != {}
        invariant todo <= roots
        invariant best.None? ==> min == limit
        invariant best.Some? ==> best.value in roots && min == distance(infos[best.value].pos, dst) < limit
        invariant forall r :: r in roots && r !in todo ==> min <= distance(infos[r].pos, dst)
      {
        var r :| r in todo;
        var d := distance(infos[r].pos, dst);
        if d < min {
          min := d;
          best := Some(r);
        }
        todo := todo - {r};
      }
    }

    /** Positions of the direct neighbours. */
    method GetNextNodePositions() returns (positions: map<Id, Pos>)
      ensures forall n :: n in positions <==> Direct(infos, n)
      ensures forall n :: n in positions ==> n in infos && positions[n] == infos[n].pos
    {
      positions := map[];
      var todo := infos.Keys;
      while todo != {}
        invariant todo <= infos.Keys
        invariant forall n :: n in positions <==> Direct(infos, n) && n !in todo
        invariant forall n :: n in positions ==> positions[n] == infos[n].pos
      {
        var n :| n in todo;
        if n in infos[n].roots {
          positions := positions[n := infos[n].pos];
        }
        todo := todo - {n};
      }
    }
  }
}
