/**
 Which devices have handlers, told from the devices' own events: over whole runs of the lifecycle protocol, and
 with which pair count.
 */
module DevicePresence {
  import opened Common
  import opened DeviceConfig
  import opened VhostModel
  import opened Lifecycle
  import HM = HandlerModel
  import PC = PortController

  function Notes(ds: seq<PC.Delivery>): seq<PC.Note> {
    if ds == [] then [] else Notes(ds[..|ds| - 1]) + [ds[|ds| - 1].note]
  }

  // All notifications sent so far, processed or still in the channel.
  function Sent(w: World): seq<PC.Note> {
    Notes(w.done) + w.vhost.wire
  }

  predicate LastUp(notes: seq<PC.Note>, vid: int) {
    notes != [] &&
    if notes[|notes| - 1].vid == vid then notes[|notes| - 1].Up? else LastUp(notes[..|notes| - 1], vid)
  }

  lemma {:induction false} LastUpProcessed(ds: seq<PC.Delivery>, vid: int)
    ensures PC.LastIsUp(ds, vid) <==> LastUp(Notes(ds), vid)
  {
    if ds != [] {
      LastUpProcessed(ds[..|ds| - 1], vid);
      LastUpAfter(Notes(ds[..|ds| - 1]), ds[|ds| - 1].note, vid);
    }
  }

  lemma LastUpAfter(notes: seq<PC.Note>, note: PC.Note, vid: int)
    ensures LastUp(notes + [note], vid) <==> if note.vid == vid then note.Up? else LastUp(notes, vid)
  {
    assert (notes + [note])[..|notes|] == notes;
  }

  // The event makes the device known as up: it arrives with one pair, or its last missing queue is enabled.
  ghost predicate Announces(w: World, e: Event, vid: int)
    requires Valid(w.vhost.cfg)
  {
    match e
    case Arrive(v, vrings) => v == vid && vrings == 2
    case Change(v, q, enable) => v == vid && OneEventFromReady(w.vhost.cfg, vid, q, enable)
    case Leave(_) => false
    case Receive => false
  }

  // Every event sends at most one notification, and a departure always one, a PORT_DOWN.
  lemma SentStep(w: World, e: Event, mode: ThreadMode, vid: int)
    requires Valid(w.vhost.cfg) && Permitted(w, e)
    ensures LastUp(Sent(Next(w, e, mode)), vid)
       <==> Announces(w, e, vid) || (LastUp(Sent(w), vid) && e != Leave(vid))
  {
    var d := Next(w, e, mode);
    match e
    case Arrive(v, vrings) =>
      UpOnlyWhenReady(w.vhost, v, vrings, 0, true);
      if vrings == 2 {
        OneMoreSent(w, d, PC.Up(PidOf(d.vhost.cfg, v), v), vid);
      }
    case Leave(v) =>
      DestroyedGoesDown(w.vhost, v);
      OneMoreSent(w, d, PC.Down(PidOf(w.vhost.cfg, v), v), vid);
    case Change(v, q, enable) =>
      ReadyAfterSetIff(w.vhost.cfg, v, q, enable);
      if OneEventFromReady(w.vhost.cfg, v, q, enable) {
        OneMoreSent(w, d, PC.Up(PidOf(w.vhost.cfg, v), v), vid);
      }
    case Receive =>
      assert d.done[..|d.done| - 1] == w.done;
      assert Sent(d) == Sent(w) by { ReceiveMovesOne(Notes(w.done), w.vhost.wire); }
  }

  lemma ReceiveMovesOne(processed: seq<PC.Note>, wire: seq<PC.Note>)
    requires wire != []
    ensures (processed + [wire[0]]) + wire[1..] == processed + wire
  {
  }

  lemma OneMoreSent(w: World, d: World, note: PC.Note, vid: int)
    requires d.done == w.done && |d.vhost.wire| == |w.vhost.wire| + 1
    requires w.vhost.wire < d.vhost.wire && d.vhost.wire[|w.vhost.wire|] == note
    ensures LastUp(Sent(d), vid) <==> if note.vid == vid then note.Up? else LastUp(Sent(w), vid)
  {
    assert Sent(d) == Sent(w) + [note];
    LastUpAfter(Sent(w), note, vid);
  }

  // Some event of the run announces the device, and it does not leave after that.
  ghost predicate UpSinceLeave(w: World, es: seq<Event>, mode: ThreadMode, vid: int)
    requires Disciplined(w, es, mode)
    decreases |es|
  {
    es != [] &&
    ((Announces(w, es[0], vid) && Leave(vid) !in es[1..]) || UpSinceLeave(Next(w, es[0], mode), es[1..], mode, vid))
  }

  lemma {:induction false} SentFollowsRun(w: World, es: seq<Event>, mode: ThreadMode, vid: int)
    requires Disciplined(w, es, mode)
    ensures LastUp(Sent(Run(w, es, mode)), vid)
       <==> UpSinceLeave(w, es, mode, vid) || (LastUp(Sent(w), vid) && Leave(vid) !in es)
    decreases |es|
  {
    if es != [] {
      SentStep(w, es[0], mode, vid);
      SentFollowsRun(Next(w, es[0], mode), es[1..], mode, vid);
      assert Leave(vid) in es <==> es[0] == Leave(vid) || Leave(vid) in es[1..];
    }
  }

  /** Whenever the channel is empty in a disciplined run, a vid has a handler exactly when some event announced its
      device and the device has not left since. So a departed device has one only if a later state change announced it
      again, and an announced device that is still there always has one. */
  lemma HandlersFollowDevices(es: seq<Event>, mode: ThreadMode, vid: int)
    requires Disciplined(START, es, mode) && Run(START, es, mode).vhost.wire == []
    ensures vid in Run(START, es, mode).ctl.slots <==> UpSinceLeave(START, es, mode, vid)
  {
    var w := Run(START, es, mode);
    LifecycleSafety(es, mode);
    SentFollowsRun(START, es, mode, vid);
    LastUpProcessed(w.done, vid);
    assert Sent(w) == Notes(w.done);
  }

  // The event at k announces the device as up, and it does not leave later.
  ghost predicate AnnouncedAt(w: World, es: seq<Event>, mode: ThreadMode, vid: int, k: nat) {
    && k < |es|
    && Disciplined(w, es[..k], mode)
    && Valid(Run(w, es[..k], mode).vhost.cfg)
    && Announces(Run(w, es[..k], mode), es[k], vid)
    && Leave(vid) !in es[k + 1..]
  }

  lemma AnnouncedFirst(w: World, es: seq<Event>, mode: ThreadMode, vid: int)
    requires es != [] && Disciplined(w, es, mode)
    ensures AnnouncedAt(w, es, mode, vid, 0) <==> Announces(w, es[0], vid) && Leave(vid) !in es[1..]
  {
    assert es[..0] == [];
  }

  lemma AnnouncedLater(w: World, es: seq<Event>, mode: ThreadMode, vid: int, k: nat)
    requires es != [] && Disciplined(w, es, mode) && k < |es| - 1
    ensures AnnouncedAt(w, es, mode, vid, k + 1) <==> AnnouncedAt(Next(w, es[0], mode), es[1..], mode, vid, k)
  {
    var p := es[..k + 1];
    assert p[0] == es[0] && p[1..] == es[1..][..k];
    assert es[k + 1 + 1..] == es[1..][k + 1..];
  }

  /** The same, by the position of the announcing event. */
  lemma {:induction false} UpSinceLeaveMeans(w: World, es: seq<Event>, mode: ThreadMode, vid: int)
    requires Disciplined(w, es, mode)
    ensures UpSinceLeave(w, es, mode, vid) <==> exists k: nat :: AnnouncedAt(w, es, mode, vid, k)
    decreases |es|
  {
    if es != [] {
      var d, rest := Next(w, es[0], mode), es[1..];
      UpSinceLeaveMeans(d, rest, mode, vid);
      AnnouncedFirst(w, es, mode, vid);
      if k: nat :| AnnouncedAt(d, rest, mode, vid, k) {
        AnnouncedLater(w, es, mode, vid, k);
      }
      if k: nat :| AnnouncedAt(w, es, mode, vid, k) {
        if k > 0 {
          AnnouncedLater(w, es, mode, vid, k - 1);
        }
      }
    }
  }

  // ---- the pair counts that notifications find ----

  // The pair count of the vid's latest arrival in the run, or the one from before it.
  function PairsAfter(before: nat, es: seq<Event>, vid: int): nat
    decreases |es|
  {
    if es == [] then before
    else PairsAfter(if es[0].Arrive? && es[0].vid == vid then es[0].vrings / 2 else before, es[1..], vid)
  }

  lemma PairsStep(w: World, e: Event, mode: ThreadMode, vid: int)
    requires Valid(w.vhost.cfg) && Permitted(w, e)
    ensures PairsOf(Next(w, e, mode).vhost.cfg, vid)
         == if e.Arrive? && e.vid == vid then e.vrings / 2 else PairsOf(w.vhost.cfg, vid)
  {
    if e.Arrive? {
      InitMeans(w.vhost.cfg, w.vhost.portCntr, e.vid, e.vrings / 2);
    }
  }

  lemma {:induction false} PairsFollowRun(w: World, es: seq<Event>, mode: ThreadMode, vid: int)
    requires Disciplined(w, es, mode)
    ensures PairsOf(Run(w, es, mode).vhost.cfg, vid) == PairsAfter(PairsOf(w.vhost.cfg, vid), es, vid)
    decreases |es|
  {
    if es != [] {
      PairsStep(w, es[0], mode, vid);
      PairsFollowRun(Next(w, es[0], mode), es[1..], mode, vid);
    }
  }

  // After a PORT_UP its vid has a handler that serves n pairs.
  ghost predicate UpServes(c: PC.Ctl, note: PC.Note, mode: ThreadMode, n: nat) {
    note.Up? ==> note.vid in c.slots && note.vid in c.slots[note.vid]
                 && PC.Serving(c.slots[note.vid][note.vid], note.vid, mode, n)
  }

  // The next notification has been processed for n pairs.
  ghost predicate ServedWith(w: World, d: World, mode: ThreadMode, n: nat)
    requires w.vhost.wire != []
  {
    d.done == w.done + [PC.Delivery(w.vhost.wire[0], n)] && UpServes(d.ctl, w.vhost.wire[0], mode, n)
  }

  lemma ReplacedServes(c: PC.Ctl, d: PC.Ctl, note: PC.Note, mode: ThreadMode, n: nat)
    requires PC.Replaced(c, d, note, mode, n)
    ensures UpServes(d, note, mode, n)
  {
  }

  lemma ReceiveServes(w: World, made: set<HM.Resource>, mode: ThreadMode)
    requires Valid(w.vhost.cfg) && w.vhost.wire != [] && PC.Matched(w.vhost.wire[0]) && PC.Inv(w.ctl, made)
    ensures ServedWith(w, Next(w, Receive, mode), mode, PairsOf(w.vhost.cfg, w.vhost.wire[0].vid))
  {
    var d, note, n := Next(w, Receive, mode), w.vhost.wire[0], PairsOf(w.vhost.cfg, w.vhost.wire[0].vid);
    assert UpServes(d.ctl, note, mode, n) by {
      PC.MatchedNote(w.ctl, made, mode, note, n);
      ReplacedServes(w.ctl, d.ctl, note, mode, n);
    }
  }

  /** A notification is processed with the pair count that the latest arrival of its vid announced, and a PORT_UP
      leaves the vid's handler serving just those pairs. */
  lemma ReceiveServesArrivedPairs(es: seq<Event>, mode: ThreadMode)
    requires Disciplined(START, es, mode) && Run(START, es, mode).vhost.wire != []
    ensures var w := Run(START, es, mode);
      && Valid(w.vhost.cfg)
      && ServedWith(w, Next(w, Receive, mode), mode, PairsAfter(0, es, w.vhost.wire[0].vid))
  {
    var w := Run(START, es, mode);
    assert Valid(w.vhost.cfg) by { RunKeepsInv(START, es, mode); }
    assert PC.Matched(w.vhost.wire[0]) && PC.Inv(w.ctl, PC.MadeBy(w.done)) by { LifecycleSafety(es, mode); }
    PairsFollowRun(START, es, mode, w.vhost.wire[0].vid);
    ReceiveServes(w, PC.MadeBy(w.done), mode);
  }
}
