/**
 The consumer side of the lifecycle protocol: PortControllerLoopback keeps its handlers in a map of maps
 and creates, replaces, starts and removes them as notifications arrive. The handlers are owned by the
 map through unique pointers, so they are values here.
 */
module PortController {
  import opened Common
  import opened HandlerModel
  import opened QueueLayout

  datatype Note = Up(pid: int, vid: int) | Down(pid: int, vid: int)

  type Slots = map<int, map<int, Handler>>

  datatype Ctl = Ctl(slots: Slots, stock: Stock)

  const NEW_CTL: Ctl := Ctl(map[], NEW_STOCK)

  // Port p is the first in the map's order whose inner map has the vid.
  ghost predicate IsFirst(slots: Slots, vid: int, p: int) {
    && p in slots && vid in slots[p]
    && forall o | o in slots && vid in slots[o] :: p <= o
  }

  // get_port_handler_by_vid: the port under which the handler is found; None stands for the exception.
  ghost function FindByVid(slots: Slots, vid: int): (r: Option<int>)
    ensures r.None? <==> forall p | p in slots :: vid !in slots[p]
    ensures r.Some? ==> IsFirst(slots, vid, r.value)
  {
    if exists p :: p in slots && vid in slots[p] then
      FirstExists(slots, vid);
      var f :| IsFirst(slots, vid, f);
      Some(f)
    else None
  }

  lemma FirstExists(slots: Slots, vid: int)
    requires exists p :: p in slots && vid in slots[p]
    ensures exists f :: IsFirst(slots, vid, f)
  {
    var holders := set o | o in slots && vid in slots[o];
    var p :| p in slots && vid in slots[p];
    assert p in holders;
    var f := LeastOf(holders, p);
    forall o | o in slots && vid in slots[o] ensures f <= o {
      assert o in holders;
    }
    assert IsFirst(slots, vid, f);
  }

  lemma {:induction false} LeastOf(s: set<int>, x: int) returns (m: int)
    requires x in s
    ensures m in s && forall y | y in s :: m <= y
    decreases |s|
  {
    var rest := s - {x};
    m := x;
    assert s == rest + {x};
    if y :| y in rest {
      var r := LeastOf(rest, y);
      m := if r < x then r else x;
    }
  }

  lemma FirstIsUnique(slots: Slots, vid: int, p: int)
    requires IsFirst(slots, vid, p)
    ensures FindByVid(slots, vid) == Some(p)
  {
  }

  function Put(slots: Slots, pid: int, vid: int, h: Handler): Slots {
    slots[pid := (if pid in slots then slots[pid] else map[])[vid := h]]
  }

  // The destructor of a handler that leaves the map: a shutdown.
  function Destroyed(stock: Stock, slots: Slots, pid: int, vid: int): Stock {
    if pid in slots && vid in slots[pid] then StoppedStock(stock, slots[pid][vid]) else stock
  }

  function AddHandler(c: Ctl, pid: int, vid: int): Ctl {
    Ctl(Put(c.slots, pid, vid, NEW_HANDLER), Destroyed(c.stock, c.slots, pid, vid))
  }

  function RemoveHandler(c: Ctl, pid: int, vid: int): Ctl {
    if pid !in c.slots then c
    else
      var inner := c.slots[pid] - {vid};
      Ctl(if inner == map[] then c.slots - {pid} else c.slots[pid := inner], Destroyed(c.stock, c.slots, pid, vid))
  }

  // handler.shutdown() through the reference found under port p.
  function ShutdownAt(c: Ctl, p: int, vid: int): Ctl
    requires p in c.slots && vid in c.slots[p]
  {
    Ctl(Put(c.slots, p, vid, Stopped(c.slots[p][vid])), StoppedStock(c.stock, c.slots[p][vid]))
  }

  // handler.start(pid, vid) through the reference found under port p with the key `at`.
  function StartAt(c: Ctl, p: int, at: int, pid: int, vid: int, qids: seq<nat>, mode: Option<ThreadMode>): Ctl
    requires p in c.slots && at in c.slots[p]
  {
    Ctl(Put(c.slots, p, at, Started(c.stock, c.slots[p][at], pid, vid, qids, mode)), CreatedStock(c.stock, qids))
  }

  // process_notification. The lookup after add_handler passes the port id where a vid is expected.
  ghost function Process(c: Ctl, note: Note, qids: seq<nat>, mode: Option<ThreadMode>): Ctl {
    match note
    case Down(pid, vid) =>
      (match FindByVid(c.slots, vid)
       case None => c
       case Some(p) => RemoveHandler(ShutdownAt(c, p, vid), pid, vid))
    case Up(pid, vid) =>
      var d := AddHandler(c, pid, vid);
      (match FindByVid(d.slots, pid)
       case None => d
       case Some(p) => StartAt(d, p, pid, pid, vid, qids, mode))
  }

  // ---- what a notification does to each slot ----

  function At(slots: Slots, p: int, v: int): Option<Handler> {
    if p in slots && v in slots[p] then Some(slots[p][v]) else None
  }

  lemma PutAt(slots: Slots, pid: int, vid: int, h: Handler, p: int, v: int)
    ensures At(Put(slots, pid, vid, h), p, v) == if p == pid && v == vid then Some(h) else At(slots, p, v)
  {
  }

  lemma RemoveAt(c: Ctl, pid: int, vid: int, p: int, v: int)
    ensures At(RemoveHandler(c, pid, vid).slots, p, v) == if p == pid && v == vid then None else At(c.slots, p, v)
  {
    if pid in c.slots {
      var inner := c.slots[pid] - {vid};
      assert inner == map[] ==> v !in inner;
    }
  }

  /** A PORT_DOWN, whatever ids it carries, stops the handler found first under its vid, where it stays, then empties
      the slot of its own port and vid, which need not be the same; a vid without a handler changes nothing. */
  lemma DownAtEachSlot(c: Ctl, pid: int, vid: int, qids: seq<nat>, mode: Option<ThreadMode>, p: int, v: int)
    ensures (forall o | o in c.slots :: vid !in c.slots[o]) ==> Process(c, Down(pid, vid), qids, mode) == c
    ensures (exists o :: o in c.slots && vid in c.slots[o]) ==>
      At(Process(c, Down(pid, vid), qids, mode).slots, p, v) ==
        if p == pid && v == vid then None
        else if v == vid && IsFirst(c.slots, vid, p) then Some(Stopped(c.slots[p][vid]))
        else At(c.slots, p, v)
  {
    if exists o :: o in c.slots && vid in c.slots[o] {
      var f := FindByVid(c.slots, vid).value;
      RemoveAt(ShutdownAt(c, f, vid), pid, vid, p, v);
      PutAt(c.slots, f, vid, Stopped(c.slots[f][vid]), p, v);
    }
  }

  // From s to t exactly the objects of this set are freed once more.
  ghost predicate FreesJust(s: Stock, t: Stock, objects: set<Resource>) {
    && t.live == s.live - objects
    && (forall r :: t.freed[r] == s.freed[r] + if r in objects then 1 else 0)
  }

  lemma StopFreesJust(s: Stock, h: Handler)
    ensures FreesJust(s, StoppedStock(s, h), Held(h))
  {
  }

  /** A handler that leaves the map, replaced or erased, is destroyed, and what it held is freed. */
  lemma LeavingFrees(c: Ctl, pid: int, vid: int)
    ensures FreesJust(c.stock, AddHandler(c, pid, vid).stock, HeldAt(c.slots, pid, vid))
    ensures FreesJust(c.stock, RemoveHandler(c, pid, vid).stock, HeldAt(c.slots, pid, vid))
  {
    if pid in c.slots && vid in c.slots[pid] {
      StopFreesJust(c.stock, c.slots[pid][vid]);
    }
  }

  /** A PORT_DOWN frees what the handler it stops held and, where its own slot is another one, what the handler it
      erases from there held. */
  lemma DownFreesBoth(c: Ctl, pid: int, vid: int, qids: seq<nat>, mode: Option<ThreadMode>, f: int)
    requires IsFirst(c.slots, vid, f)
    ensures var stopped := StoppedStock(c.stock, c.slots[f][vid]);
      && FreesJust(c.stock, stopped, Held(c.slots[f][vid]))
      && FreesJust(stopped, Process(c, Down(pid, vid), qids, mode).stock,
                   if f == pid then {} else HeldAt(c.slots, pid, vid))
  {
    var d := ShutdownAt(c, f, vid);
    StopFreesJust(c.stock, c.slots[f][vid]);
    FirstIsUnique(c.slots, vid, f);
    assert HeldAt(d.slots, pid, vid) == if f == pid then {} else HeldAt(c.slots, pid, vid);
    LeavingFrees(d, pid, vid);
  }

  /** A PORT_UP, whatever ids it carries, puts a new handler into the slot of its port and vid, and starts the handler
      found first under its port id; no other slot changes. */
  lemma UpAtEachSlot(c: Ctl, pid: int, vid: int, qids: seq<nat>, mode: Option<ThreadMode>, p: int, v: int)
    ensures var d, e := Process(c, Up(pid, vid), qids, mode), AddHandler(c, pid, vid);
      && At(e.slots, p, v) == (if p == pid && v == vid then Some(NEW_HANDLER) else At(c.slots, p, v))
      && At(d.slots, p, v) ==
         if v == pid && IsFirst(e.slots, pid, p)
         then Some(Started(e.stock, e.slots[p][pid], pid, vid, qids, mode))
         else At(e.slots, p, v)
  {
    var e := AddHandler(c, pid, vid);
    PutAt(c.slots, pid, vid, NEW_HANDLER, p, v);
    if exists o :: o in e.slots && pid in e.slots[o] {
      var f := FindByVid(e.slots, pid).value;
      PutAt(e.slots, f, pid, Started(e.stock, e.slots[f][pid], pid, vid, qids, mode), p, v);
    }
  }

  // ---- which handler a PORT_UP starts ----

  // The handler that start is called on is the one add_handler has just stored.
  ghost predicate StartsTheAdded(c: Ctl, pid: int, vid: int) {
    pid == vid && FindByVid(AddHandler(c, pid, vid).slots, pid) == Some(pid)
  }

  /** A PORT_UP starts the handler it has just added exactly when its port id equals its vid and no
      smaller port already holds a handler for that vid. */
  lemma UpStartsTheAddedIff(c: Ctl, pid: int, vid: int)
    ensures StartsTheAdded(c, pid, vid)
       <==> pid == vid && forall p | p in c.slots && p < pid :: vid !in c.slots[p]
  {
    var d := AddHandler(c, pid, vid);
    if pid == vid {
      assert pid in d.slots && vid in d.slots[pid];
      if forall p | p in c.slots && p < pid :: vid !in c.slots[p] {
        assert IsFirst(d.slots, vid, pid);
        FirstIsUnique(d.slots, vid, pid);
      } else {
        var p :| p in c.slots && p < pid && vid in c.slots[p];
        assert d.slots[p] == c.slots[p];
      }
    }
  }

  // ---- notifications whose port id is the vid ----

  predicate Matched(note: Note) {
    note.pid == note.vid
  }

  // Each vid has at most one handler, filed under its own number.
  predicate Diagonal(slots: Slots) {
    forall p | p in slots :: slots[p].Keys == {p}
  }

  function Flat(slots: Slots): map<int, Handler>
    requires Diagonal(slots)
  {
    map p | p in slots :: slots[p][p]
  }

  // vid's handler after exactly one start as (vid, vid): running, with the workers and objects of n queue pairs.
  ghost predicate Serving(h: Handler, vid: int, mode: ThreadMode, n: nat) {
    && h.running
    && StartedOnce(h) && h.starts[0].pid == h.starts[0].vid == vid
    && h.threads == Contexts(vid, Layout(mode, n)) && h.mempools.Keys == Odd(QueueIds(n))
  }

  // The create_resources call that made a handler's objects.
  function Gen(h: Handler): nat {
    if |h.starts| > 0 then h.starts[0].gen else 0
  }

  ghost predicate Owned(m: map<int, Handler>, r: Resource) {
    exists v :: v in m && r in Held(m[v])
  }

  // The stock's live objects are exactly those the handlers hold, and each is held by one handler.
  ghost predicate Accounted(m: map<int, Handler>, s: Stock) {
    && (forall v, r | v in m && r in Held(m[v]) :: r.gen == Gen(m[v]))
    && (forall v | v in m :: Gen(m[v]) < s.gen)
    && (forall v, w | v in m && w in m && v != w :: Gen(m[v]) != Gen(m[w]))
    && (forall r :: r in s.live <==> Owned(m, r))
  }

  // made is the set of all objects made so far.
  ghost predicate Inv(c: Ctl, made: set<Resource>) {
    && Diagonal(c.slots)
    && Accounted(Flat(c.slots), c.stock)
    && Sound(c.stock, made)
  }

  lemma HeldByOne(m: map<int, Handler>, s: Stock, v: int, w: int, r: Resource)
    requires Accounted(m, s) && v in m && w in m && v != w && r in Held(m[v])
    ensures r !in Held(m[w])
  {
  }

  // Freeing what vid's handler holds frees nobody else's objects.
  lemma DropAccounted(m: map<int, Handler>, s: Stock, vid: int)
    requires Accounted(m, s) && vid in m
    ensures Held(m[vid]) <= s.live
    ensures Accounted(m - {vid}, StoppedStock(s, m[vid]))
  {
    var rest := m - {vid};
    forall r | r in Held(m[vid]) ensures r in s.live {
      assert Owned(m, r);
    }
    forall r ensures r in s.live - Held(m[vid]) <==> Owned(rest, r) {
      if r in s.live - Held(m[vid]) {
        var v :| v in m && r in Held(m[v]);
        assert v in rest;
      }
      if Owned(rest, r) {
        var v :| v in rest && r in Held(rest[v]);
        assert v in m && r in Held(m[v]);
        HeldByOne(m, s, v, vid, r);
      }
    }
  }

  // A handler with objects of its own goes into a free slot.
  lemma FillAccounted(m: map<int, Handler>, s: Stock, t: Stock, vid: int, h: Handler)
    requires Accounted(m, s) && vid !in m && Gen(h) == s.gen < t.gen
    requires (forall r | r in Held(h) :: r.gen == s.gen) && t.live == s.live + Held(h)
    ensures Accounted(m[vid := h], t)
  {
    var all := m[vid := h];
    forall r ensures r in t.live <==> Owned(all, r) {
      if r in s.live {
        var v :| v in m && r in Held(m[v]);
        assert v in all && all[v] == m[v];
      } else if r in Held(h) {
        assert vid in all && all[vid] == h;
      }
      if Owned(all, r) {
        var v :| v in all && r in Held(all[v]);
        if v != vid {
          assert Owned(m, r);
        }
      }
    }
  }

  lemma FreshStartServes(s: Stock, mode: ThreadMode, vid: int, n: nat)
    ensures var h := Started(s, NEW_HANDLER, vid, vid, QueueIds(n), Some(mode));
      && Serving(h, vid, mode, n) && h.starts == [StartCall(vid, vid, s.gen)]
      && (forall r | r in Held(h) :: r.gen == s.gen)
      && CreatedStock(s, QueueIds(n)).live == s.live + Held(h)
  {
    var h := Started(s, NEW_HANDLER, vid, vid, QueueIds(n), Some(mode));
    FreshStartIsStartedOnce(s, vid, vid, QueueIds(n), Some(mode));
    assert h.threads == Contexts(vid, Layout(mode, n)) && h.mempools.Keys == Odd(QueueIds(n));
  }

  lemma FoundOnDiagonal(slots: Slots, vid: int)
    requires Diagonal(slots)
    ensures FindByVid(slots, vid) == if vid in slots then Some(vid) else None
  {
    if vid in slots {
      assert IsFirst(slots, vid, vid);
      FirstIsUnique(slots, vid, vid);
    }
  }

  function HeldAt(slots: Slots, pid: int, vid: int): set<Resource> {
    if pid in slots && vid in slots[pid] then Held(slots[pid][vid]) else {}
  }

  // What a matched notification must do: add, replace or remove vid's handler, the new one serving n pairs, free
  // each object that a handler it displaces held for the first time, free nothing else, and touch no other handler.
  ghost predicate Replaced(c: Ctl, d: Ctl, note: Note, mode: ThreadMode, n: nat) {
    && d.slots.Keys == (if note.Up? then c.slots.Keys + {note.vid} else c.slots.Keys - {note.vid})
    && (forall v | v in c.slots && v != note.vid :: d.slots[v] == c.slots[v])
    && (note.Up? ==> note.vid in d.slots[note.vid]
                     && Serving(d.slots[note.vid][note.vid], note.vid, mode, n)
                     && d.slots[note.vid][note.vid].starts == [StartCall(note.vid, note.vid, c.stock.gen)])
    && FreesOnce(c.stock, d.stock, HeldAt(c.slots, note.vid, note.vid))
    && d.stock.gen == (if note.Up? then c.stock.gen + 1 else c.stock.gen)
  }

  // From s to t exactly the objects of this set go from live to freed, each with count one.
  ghost predicate FreesOnce(s: Stock, t: Stock, objects: set<Resource>) {
    && (forall r | r in objects :: r in s.live && r !in t.live && s.freed[r] == 0 && t.freed[r] == 1)
    && (forall r | r !in objects :: t.freed[r] == s.freed[r] && (r in s.live ==> r in t.live))
  }

  lemma DropOrNothing(c: Ctl, made: set<Resource>, vid: int)
    requires Inv(c, made)
    ensures Inv(Ctl(c.slots - {vid}, Destroyed(c.stock, c.slots, vid, vid)), made)
    ensures FreesOnce(c.stock, Destroyed(c.stock, c.slots, vid, vid), HeldAt(c.slots, vid, vid))
  {
    var m := Flat(c.slots);
    assert Flat(c.slots - {vid}) == m - {vid};
    if vid in c.slots {
      assert m[vid] == c.slots[vid][vid];
      DropAccounted(m, c.stock, vid);
      StopKeepsSound(c.stock, made, m[vid]);
      forall r | r in Held(m[vid]) ensures c.stock.freed[r] == 0 {
        assert c.stock.freed[r] + 1 == if r in made then 1 else 0;
      }
    } else {
      assert c.slots - {vid} == c.slots;
    }
  }

  lemma FlatPut(slots: Slots, vid: int, h: Handler)
    requires Diagonal(slots)
    ensures Diagonal(slots[vid := map[vid := h]]) && Flat(slots[vid := map[vid := h]]) == Flat(slots)[vid := h]
  {
  }

  lemma StartInFreeSlot(c: Ctl, made: set<Resource>, d: Ctl, all: set<Resource>, vid: int, h: Handler)
    requires Inv(c, made) && vid !in c.slots && d.slots == c.slots[vid := map[vid := h]]
    requires Gen(h) == c.stock.gen < d.stock.gen && Sound(d.stock, all)
    requires (forall r | r in Held(h) :: r.gen == c.stock.gen) && d.stock.live == c.stock.live + Held(h)
    ensures Inv(d, all)
  {
    FlatPut(c.slots, vid, h);
    FillAccounted(Flat(c.slots), c.stock, d.stock, vid, h);
  }

  // The objects made once this notification has been processed.
  function MadeAfter(c: Ctl, made: set<Resource>, note: Note, n: nat): set<Resource> {
    if note.Up? then made + Made(c.stock.gen, QueueIds(n)) else made
  }

  /** A matched PORT_DOWN removes vid's handler if there is one, having joined it and freed each of its objects once,
      and does nothing otherwise; a matched PORT_UP leaves a fresh handler for n pairs in place of whatever was there. */
  lemma MatchedNote(c: Ctl, made: set<Resource>, mode: ThreadMode, note: Note, n: nat)
    requires Inv(c, made) && Matched(note)
    ensures Inv(Process(c, note, QueueIds(n), Some(mode)), MadeAfter(c, made, note, n))
    ensures Replaced(c, Process(c, note, QueueIds(n), Some(mode)), note, mode, n)
  {
    DropOrNothing(c, made, note.vid);
    if note.Up? {
      MatchedUpHandled(c, made, mode, note, n);
    } else {
      MatchedDownHandled(c, made, mode, note, n);
    }
  }

  lemma MatchedDownHandled(c: Ctl, made: set<Resource>, mode: ThreadMode, note: Note, n: nat)
    requires Inv(c, made) && Matched(note) && note.Down?
    requires Inv(Ctl(c.slots - {note.vid}, Destroyed(c.stock, c.slots, note.vid, note.vid)), made)
    requires FreesOnce(c.stock, Destroyed(c.stock, c.slots, note.vid, note.vid), HeldAt(c.slots, note.vid, note.vid))
    ensures Inv(Process(c, note, QueueIds(n), Some(mode)), MadeAfter(c, made, note, n))
    ensures Replaced(c, Process(c, note, QueueIds(n), Some(mode)), note, mode, n)
  {
    var e := Ctl(c.slots - {note.vid}, Destroyed(c.stock, c.slots, note.vid, note.vid));
    assert Process(c, note, QueueIds(n), Some(mode)) == e by {
      MatchedDown(c, note, QueueIds(n), Some(mode));
      assert note.vid !in c.slots ==> c.slots - {note.vid} == c.slots;
    }
    EmptiedSlot(c, e, note, mode, n);
  }

  lemma EmptiedSlot(c: Ctl, e: Ctl, note: Note, mode: ThreadMode, n: nat)
    requires note.Down? && e.slots == c.slots - {note.vid} && e.stock.gen == c.stock.gen
    requires FreesOnce(c.stock, e.stock, HeldAt(c.slots, note.vid, note.vid))
    ensures Replaced(c, e, note, mode, n)
  {
  }

  lemma MatchedUpHandled(c: Ctl, made: set<Resource>, mode: ThreadMode, note: Note, n: nat)
    requires Inv(c, made) && Matched(note) && note.Up?
    requires Inv(Ctl(c.slots - {note.vid}, Destroyed(c.stock, c.slots, note.vid, note.vid)), made)
    requires FreesOnce(c.stock, Destroyed(c.stock, c.slots, note.vid, note.vid), HeldAt(c.slots, note.vid, note.vid))
    ensures Inv(Process(c, note, QueueIds(n), Some(mode)), MadeAfter(c, made, note, n))
    ensures Replaced(c, Process(c, note, QueueIds(n), Some(mode)), note, mode, n)
  {
    var vid := note.vid;
    var e := Ctl(c.slots - {vid}, Destroyed(c.stock, c.slots, vid, vid));
    var h := Started(e.stock, NEW_HANDLER, vid, vid, QueueIds(n), Some(mode));
    var d := Ctl(e.slots[vid := map[vid := h]], CreatedStock(e.stock, QueueIds(n)));
    assert Process(c, note, QueueIds(n), Some(mode)) == d by { MatchedUp(c, note, QueueIds(n), Some(mode)); }
    FreshStartServes(e.stock, mode, vid, n);
    CreateKeepsSound(e.stock, made, QueueIds(n));
    StartInFreeSlot(e, made, d, MadeAfter(c, made, note, n), vid, h);
    StillFreedOnce(c.stock, e.stock, made, QueueIds(n), HeldAt(c.slots, vid, vid));
    FilledSlot(c, e, d, note, mode, n, h);
  }

  // Making objects afterwards does not touch what was freed.
  lemma StillFreedOnce(s: Stock, t: Stock, made: set<Resource>, qids: seq<nat>, objects: set<Resource>)
    requires FreesOnce(s, t, objects) && Sound(t, made)
    ensures FreesOnce(s, CreatedStock(t, qids), objects)
  {
    var u := CreatedStock(t, qids);
    forall r | r in objects ensures r !in u.live {
      assert t.freed[r] == (if r in made then 1 else 0);
      MadeMeans(t.gen, qids, r);
    }
  }

  lemma FilledSlot(c: Ctl, e: Ctl, d: Ctl, note: Note, mode: ThreadMode, n: nat, h: Handler)
    requires note.Up? && e == Ctl(c.slots - {note.vid}, Destroyed(c.stock, c.slots, note.vid, note.vid))
    requires d.slots == e.slots[note.vid := map[note.vid := h]] && d.stock.gen == e.stock.gen + 1
    requires FreesOnce(c.stock, d.stock, HeldAt(c.slots, note.vid, note.vid))
    requires Serving(h, note.vid, mode, n) && h.starts == [StartCall(note.vid, note.vid, c.stock.gen)]
    ensures Replaced(c, d, note, mode, n)
  {
  }

  lemma MatchedUp(c: Ctl, note: Note, qids: seq<nat>, mode: Option<ThreadMode>)
    requires Diagonal(c.slots) && note.Up? && Matched(note)
    ensures var stock := Destroyed(c.stock, c.slots, note.vid, note.vid);
      Process(c, note, qids, mode)
        == Ctl((c.slots - {note.vid})[note.vid := map[note.vid := Started(stock, NEW_HANDLER, note.vid, note.vid, qids, mode)]],
               CreatedStock(stock, qids))
  {
    var vid := note.vid;
    var d := AddHandler(c, vid, vid);
    assert d.slots[vid] == map[vid := NEW_HANDLER];
    FoundOnDiagonal(d.slots, vid);
    var h := Started(d.stock, NEW_HANDLER, vid, vid, qids, mode);
    assert d.slots[vid][vid := h] == map[vid := h];
    assert d.slots[vid := map[vid := h]] == (c.slots - {vid})[vid := map[vid := h]];
  }

  lemma MatchedDown(c: Ctl, note: Note, qids: seq<nat>, mode: Option<ThreadMode>)
    requires Diagonal(c.slots) && note.Down? && Matched(note)
    ensures Process(c, note, qids, mode)
         == if note.vid in c.slots
            then Ctl(c.slots - {note.vid}, StoppedStock(c.stock, c.slots[note.vid][note.vid]))
            else c
  {
    var vid := note.vid;
    FoundOnDiagonal(c.slots, vid);
    if vid in c.slots {
      var d := ShutdownAt(c, vid, vid);
      assert d.slots[vid] - {vid} == map[];
      assert d.slots - {vid} == c.slots - {vid};
      SecondShutdownIsHarmless(c.stock, c.slots[vid][vid]);
    }
  }

  // ---- notifications whose port id is another vid ----

  ghost predicate HeldAnywhere(slots: Slots, r: Resource) {
    exists p, v :: p in slots && v in slots[p] && r in Held(slots[p][v])
  }

  lemma MismatchedUp(c: Ctl, pid: int, vid: int, qids: seq<nat>, mode: ThreadMode)
    requires Diagonal(c.slots) && pid != vid && pid in c.slots
    ensures var h := Started(c.stock, c.slots[pid][pid], pid, vid, qids, Some(mode));
      Process(c, Up(pid, vid), qids, Some(mode))
        == Ctl(c.slots[pid := map[pid := h, vid := NEW_HANDLER]], CreatedStock(c.stock, qids))
  {
    var h := Started(c.stock, c.slots[pid][pid], pid, vid, qids, Some(mode));
    var e := AddHandler(c, pid, vid);
    assert e.stock == c.stock;
    assert e.slots[pid] == map[pid := c.slots[pid][pid], vid := NEW_HANDLER];
    assert IsFirst(e.slots, pid, pid);
    FirstIsUnique(e.slots, pid, pid);
    assert e.slots[pid][pid := h] == map[pid := h, vid := NEW_HANDLER];
    assert e.slots[pid := map[pid := h, vid := NEW_HANDLER]] == c.slots[pid := map[pid := h, vid := NEW_HANDLER]];
  }

  lemma OwnedIsHeld(slots: Slots, r: Resource)
    requires Diagonal(slots)
    ensures Owned(Flat(slots), r) <==> HeldAnywhere(slots, r)
  {
    if v :| v in Flat(slots) && r in Held(Flat(slots)[v]) {
      assert v in slots[v] && r in Held(slots[v][v]);
    }
    if p, v :| p in slots && v in slots[p] && r in Held(slots[p][v]) {
      assert v == p && r in Held(Flat(slots)[p]);
    }
  }

  // A second start stores its objects over those the first start left under the same queue ids.
  lemma SecondStartKeeps(s: Stock, h: Handler, pid: int, vid: int, qids: seq<nat>, mode: ThreadMode, r: Resource)
    requires StartedOnce(h) && h.starts[0].gen < s.gen && r in Held(h)
    ensures r in Held(Started(s, h, pid, vid, qids, Some(mode))) <==> r.qid !in Odd(qids)
  {
    var k := Started(s, h, pid, vid, qids, Some(mode));
    assert r.qid in h.mempools && r.qid in h.rings && r.gen == h.starts[0].gen;
    if r.qid !in Odd(qids) {
      assert k.mempools[r.qid] == h.mempools[r.qid] && k.rings[r.qid] == h.rings[r.qid];
      assert r in (if r.Mempool? then k.mempools.Values else k.rings.Values);
    }
  }

  // Whatever port pid's handler becomes, no other handler holds what it held.
  lemma HeldThereOrNowhere(slots: Slots, s: Stock, pid: int, vid: int, h: Handler, r: Resource)
    requires Diagonal(slots) && Accounted(Flat(slots), s) && pid in slots && pid != vid && r in Held(slots[pid][pid])
    ensures HeldAnywhere(slots[pid := map[pid := h, vid := NEW_HANDLER]], r) <==> r in Held(h)
  {
    var after := slots[pid := map[pid := h, vid := NEW_HANDLER]];
    if r in Held(h) {
      assert r in Held(after[pid][pid]);
    } else {
      forall p, v | p in after && v in after[p] ensures r !in Held(after[p][v]) {
        if p != pid {
          assert v == p && Flat(slots)[p] == slots[p][p] && Flat(slots)[pid] == slots[pid][pid];
          HeldByOne(Flat(slots), s, pid, p, r);
        }
      }
    }
  }

  /** What a mismatch costs: the objects of the handler that is started again stay live, and exactly those of the
      queues the second start lists are held by no handler any more. */
  lemma MismatchedUpLeaks(c: Ctl, made: set<Resource>, pid: int, vid: int, qids: seq<nat>, mode: ThreadMode,
                          r: Resource)
    requires Inv(c, made) && pid != vid && pid in c.slots
    requires StartedOnce(c.slots[pid][pid]) && r in Held(c.slots[pid][pid])
    ensures r in Process(c, Up(pid, vid), qids, Some(mode)).stock.live
    ensures HeldAnywhere(Process(c, Up(pid, vid), qids, Some(mode)).slots, r) <==> r.qid !in Odd(qids)
  {
    var h := c.slots[pid][pid];
    var k := Started(c.stock, h, pid, vid, qids, Some(mode));
    assert Process(c, Up(pid, vid), qids, Some(mode))
        == Ctl(c.slots[pid := map[pid := k, vid := NEW_HANDLER]], CreatedStock(c.stock, qids)) by {
      MismatchedUp(c, pid, vid, qids, mode);
    }
    HeldIsLive(Flat(c.slots), c.stock, pid, r);
    SecondStartKeeps(c.stock, h, pid, vid, qids, mode, r);
    HeldThereOrNowhere(c.slots, c.stock, pid, vid, k, r);
  }

  lemma HeldIsLive(m: map<int, Handler>, s: Stock, v: int, r: Resource)
    requires Accounted(m, s) && v in m && r in Held(m[v])
    ensures r in s.live && (|m[v].starts| == 1 ==> m[v].starts[0].gen < s.gen)
  {
    assert Owned(m, r);
  }

  // ---- whole runs of notifications ----

  // A notification together with the pair count the configuration shows when it is processed.
  datatype Delivery = Delivery(note: Note, pairs: nat)

  ghost function ProcessAll(ds: seq<Delivery>, mode: ThreadMode): Ctl {
    if ds == [] then NEW_CTL
    else
      var d := ds[|ds| - 1];
      Process(ProcessAll(ds[..|ds| - 1], mode), d.note, QueueIds(d.pairs), Some(mode))
  }

  // vid's last notification was a PORT_UP.
  predicate LastIsUp(ds: seq<Delivery>, vid: int) {
    ds != [] && if ds[|ds| - 1].note.vid == vid then ds[|ds| - 1].note.Up? else LastIsUp(ds[..|ds| - 1], vid)
  }

  // The pair count that vid's last notification found.
  function LastPairs(ds: seq<Delivery>, vid: int): nat {
    if ds == [] then 0
    else if ds[|ds| - 1].note.vid == vid then ds[|ds| - 1].pairs else LastPairs(ds[..|ds| - 1], vid)
  }

  function Ups(ds: seq<Delivery>): nat {
    if ds == [] then 0 else Ups(ds[..|ds| - 1]) + if ds[|ds| - 1].note.Up? then 1 else 0
  }

  // Every object that the starts of this sequence make: the k-th PORT_UP makes those numbered k.
  function MadeBy(ds: seq<Delivery>): set<Resource> {
    if ds == [] then {}
    else
      var before, last := ds[..|ds| - 1], ds[|ds| - 1];
      MadeBy(before) + if last.note.Up? then Made(Ups(before), QueueIds(last.pairs)) else {}
  }

  // Where the notifications leave the handlers.
  ghost predicate Follows(c: Ctl, ds: seq<Delivery>, mode: ThreadMode) {
    && Inv(c, MadeBy(ds)) && c.stock.gen == Ups(ds)
    && (forall v :: v in c.slots <==> LastIsUp(ds, v))
    && (forall v | v in c.slots :: Serving(c.slots[v][v], v, mode, LastPairs(ds, v)))
  }

  /** After any sequence of matched notifications, with repeated PORT_UPs and unmatched PORT_DOWNs in any
      order: each vid has at most one handler, it is there exactly when the vid's last notification was a PORT_UP,
      it was started once, as its own vid, for the pair count that notification found, and every DPDK object ever
      made is either held by exactly one of the handlers or has been freed exactly once. */
  lemma {:induction false} HandlersFollowNotes(ds: seq<Delivery>, mode: ThreadMode)
    requires forall k | 0 <= k < |ds| :: Matched(ds[k].note)
    ensures Follows(ProcessAll(ds, mode), ds, mode)
  {
    if ds != [] {
      var before, d := ds[..|ds| - 1], ds[|ds| - 1];
      HandlersFollowNotes(before, mode);
      MatchedNote(ProcessAll(before, mode), MadeBy(before), mode, d.note, d.pairs);
      StepFollows(ProcessAll(before, mode), ProcessAll(ds, mode), ds, mode);
    }
  }

  lemma StepFollows(c: Ctl, e: Ctl, ds: seq<Delivery>, mode: ThreadMode)
    requires ds != [] && Follows(c, ds[..|ds| - 1], mode)
    requires Replaced(c, e, ds[|ds| - 1].note, mode, ds[|ds| - 1].pairs) && Inv(e, MadeBy(ds))
    ensures Follows(e, ds, mode)
  {
    forall v
      ensures v in e.slots <==> LastIsUp(ds, v)
      ensures v in e.slots ==> Serving(e.slots[v][v], v, mode, LastPairs(ds, v))
    {
      StepServes(c, e, ds, mode, v);
    }
  }

  lemma StepServes(c: Ctl, e: Ctl, ds: seq<Delivery>, mode: ThreadMode, v: int)
    requires ds != [] && Diagonal(c.slots) && Diagonal(e.slots)
    requires v in c.slots <==> LastIsUp(ds[..|ds| - 1], v)
    requires v in c.slots ==> Serving(c.slots[v][v], v, mode, LastPairs(ds[..|ds| - 1], v))
    requires Replaced(c, e, ds[|ds| - 1].note, mode, ds[|ds| - 1].pairs)
    ensures v in e.slots <==> LastIsUp(ds, v)
    ensures v in e.slots ==> Serving(e.slots[v][v], v, mode, LastPairs(ds, v))
  {
    var note := ds[|ds| - 1].note;
    if v == note.vid {
      assert LastPairs(ds, v) == ds[|ds| - 1].pairs;
    } else {
      assert LastPairs(ds, v) == LastPairs(ds[..|ds| - 1], v);
      assert v in c.slots ==> e.slots[v] == c.slots[v];
    }
  }

  /** What the accounting says of one object: made by the k-th PORT_UP for a transmit queue it announced, and then
      either held by one handler and never freed, or held by none and freed once; not made, and then neither. */
  lemma EachObjectHeldOrFreedOnce(c: Ctl, ds: seq<Delivery>, mode: ThreadMode, r: Resource)
    requires Follows(c, ds, mode)
    ensures r in MadeBy(ds) ==> if Owned(Flat(c.slots), r) then c.stock.freed[r] == 0 else c.stock.freed[r] == 1
    ensures r !in MadeBy(ds) ==> !Owned(Flat(c.slots), r) && c.stock.freed[r] == 0
    ensures forall v, w | v in c.slots && w in c.slots && r in Held(c.slots[v][v]) && r in Held(c.slots[w][w]) :: v == w
  {
    var m := Flat(c.slots);
    assert r in c.stock.live <==> Owned(m, r);
    assert c.stock.freed[r] + (if r in c.stock.live then 1 else 0) == (if r in MadeBy(ds) then 1 else 0);
    forall v, w | v in c.slots && w in c.slots && r in Held(c.slots[v][v]) && r in Held(c.slots[w][w]) ensures v == w {
      assert m[v] == c.slots[v][v] && m[w] == c.slots[w][w];
      if v != w {
        HeldByOne(m, c.stock, v, w, r);
      }
    }
  }

  ghost predicate MadeAt(ds: seq<Delivery>, k: nat, r: Resource)
    requires k < |ds|
  {
    ds[k].note.Up? && r.gen == Ups(ds[..k]) && r.qid % 2 != 0 && r.qid < 2 * ds[k].pairs
  }

  lemma {:induction false} MadeByMeans(ds: seq<Delivery>, r: Resource)
    ensures r in MadeBy(ds) <==> exists k: nat :: k < |ds| && MadeAt(ds, k, r)
  {
    if ds != [] {
      var n := |ds| - 1;
      var before := ds[..n];
      MadeByMeans(before, r);
      MadeMeans(Ups(before), QueueIds(ds[n].pairs), r);
      OddIds(ds[n].pairs, r.qid);
      assert MadeAt(ds, n, r) <==> ds[n].note.Up? && r in Made(Ups(before), QueueIds(ds[n].pairs));
      forall k: nat | k < n ensures MadeAt(before, k, r) <==> MadeAt(ds, k, r) {
        assert before[..k] == ds[..k];
      }
      if k: nat :| k < n && MadeAt(before, k, r) {
        assert MadeAt(ds, k, r);
      }
    }
  }

  lemma OddIds(n: nat, q: nat)
    ensures q in Odd(QueueIds(n)) <==> q % 2 != 0 && q < 2 * n
  {
    var ids := QueueIds(n);
    if q % 2 != 0 && q < 2 * n {
      TransmitQueueIsListed(n, q);
    }
    if q in ids {
      var k :| 0 <= k < |ids| && ids[k] == q;
      assert |ids| == 2 * n;
      QueueIdsAt(n, k);
    }
  }
}
