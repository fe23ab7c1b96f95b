/**
 * The `/ws` endpoint: on connect, register the websocket and replay the
 * history; for each inbound frame, store it, broadcast it, and push a
 * notification if the stored row is not yet marked notified.
 */
module Relay {
  import opened Wrappers
  import opened Frames
  import opened Store
  import opened Subscriptions
  import opened Connections

  /** The frame a stored row is replayed as. */
  function RowFrame(r: Row): (f: string)
    ensures |f| == |r.author| + |r.content| + 9
  {
    RenderFrame(Message(r.author, r.content))
  }

  /** A replayed frame is exactly the frame the message was broadcast as when it arrived. */
  lemma ReplayMatchesLive(m: Message)
    ensures RowFrame(NewRow(m)) == RenderFrame(m)
  {
  }

  /**
   * History replay: when the history query answered 200, send one frame per
   * row it returned, in the order returned (oldest first); otherwise send
   * nothing.
   */
  method Replay(rows: seq<Row>, historyOk: bool) returns (frames: seq<string>)
    ensures !historyOk ==> frames == []
    ensures historyOk ==> |frames| == |History(rows)|
    ensures historyOk ==> forall i :: 0 <= i < |frames| ==> frames[i] == RowFrame(rows[i])
  {
    frames := [];
    if historyOk {
      var history := History(rows);
      var i := 0;
      while i < |history|
        invariant 0 <= i <= |history|
        invariant |frames| == i
        invariant forall j :: 0 <= j < i ==> frames[j] == RowFrame(rows[j])
      {
        frames := frames + [RowFrame(history[i])];
        i := i + 1;
      }
    }
  }

  /** Accept a websocket: append it to the registry, then replay the history to it. */
  method Connect(conns: ConnectionRegistry, store: MessageStore, c: Conn, historyOk: bool)
    returns (frames: seq<string>)
    requires conns.Valid() && c !in conns.members
    modifies conns
    ensures conns.Valid()
    ensures conns.members == old(conns.members) + [c]
    ensures !historyOk ==> frames == []
    ensures historyOk ==> |frames| == |History(store.rows)|
    ensures historyOk ==> forall i :: 0 <= i < |frames| ==> frames[i] == RowFrame(store.rows[i])
  {
    conns.Add(c);
    frames := Replay(store.rows, historyOk);
  }

  /**
   * The notify step for one stored frame. Nothing happens without an id.
   * With one, the flag is read back; only when it reads as not notified is
   * the push run, and only when the push run did not raise is the flag
   * patched to `true` (`patchOk` says whether the patch reached the table).
   * `pushed` is the notification body the push run delivered, if one ran.
   * The push run applies the prune test as written, so the subscription
   * registry comes out unchanged.
   */
  method Notify(subs: SubscriptionRegistry, store: MessageStore, msgId: Option<nat>, m: Message,
                readOk: bool, deliver: Subscription -> Delivery, patchOk: bool)
    returns (dispatched: bool, pushed: Option<string>, attempted: seq<Subscription>)
    requires subs.Valid()
    modifies subs, store
    ensures subs.Valid()
    ensures dispatched <==> msgId.Some? && Dispatches(ReadFlag(old(store.rows), msgId.value, readOk))
    ensures pushed == if dispatched then Some(NotificationBody(m)) else None
    ensures attempted == if dispatched then Attempted(old(subs.entries), deliver) else []
    ensures subs.entries == old(subs.entries)
    ensures store.rows ==
      if dispatched && FirstRaise(old(subs.entries), deliver) == |old(subs.entries)| && patchOk
      then Marked(old(store.rows), msgId.value)
      else old(store.rows)
    ensures Evolves(old(store.rows), store.rows)
  {
    dispatched := false;
    pushed := None;
    attempted := [];
    if msgId.Some? {
      var read := ReadFlag(store.rows, msgId.value, readOk);
      if Dispatches(read) {
        dispatched := true;
        var body, raised;
        body, attempted, raised := subs.SendPushNotification(m, deliver, AsWritten);
        pushed := Some(body);
        AsWrittenNeverPrunes(old(subs.entries), deliver);
        if !raised {
          store.SetNotified(msgId.value, patchOk);
        }
      }
    }
  }

  /**
   * One inbound text frame. Without a `|` it is skipped and nothing
   * changes. Otherwise it is stored (whatever the insert came to), the
   * rendered frame is broadcast to every connection, and the notify step
   * runs with the id the insert handed back.
   */
  method HandleFrame(conns: ConnectionRegistry, subs: SubscriptionRegistry, store: MessageStore,
                     data: string, insert: InsertOutcome, failing: set<Conn>,
                     readOk: bool, deliver: Subscription -> Delivery, patchOk: bool)
    returns (sends: seq<(Conn, string)>, pushed: Option<string>, dispatched: bool)
    requires conns.Valid() && subs.Valid()
    modifies conns, subs, store
    ensures conns.Valid() && subs.Valid()
    ensures Separator !in data ==>
      sends == [] && pushed == None && !dispatched &&
      conns.members == old(conns.members) && store.rows == old(store.rows)
    ensures subs.entries == old(subs.entries)
    ensures Separator in data ==>
      var m := ParseFrame(data).value;
      var stored := if insert.NotStored? then old(store.rows) else old(store.rows) + [NewRow(m)];
      |sends| == |old(conns.members)| &&
      (forall i :: 0 <= i < |sends| ==> sends[i] == (old(conns.members)[i], RenderFrame(m))) &&
      pushed == (if dispatched then Some(NotificationBody(m)) else None) &&
      conns.members == Survivors(old(conns.members), failing) &&
      (dispatched <==> insert.Created? && readOk) &&
      store.rows ==
        (if dispatched && FirstRaise(old(subs.entries), deliver) == |old(subs.entries)| && patchOk
         then Marked(stored, |old(store.rows)|)
         else stored)
    ensures Evolves(old(store.rows), store.rows)
  {
    sends := [];
    pushed := None;
    dispatched := false;
    var parsed := ParseFrame(data);
    if parsed.None? {
      return;
    }
    var m := parsed.value;
    var msgId := store.Insert(m, insert);
    ghost var stored := store.rows;
    sends := conns.Broadcast(RenderFrame(m), failing);
    InsertedRowDispatches(old(store.rows), m);
    var attempted;
    dispatched, pushed, attempted := Notify(subs, store, msgId, m, readOk, deliver, patchOk);
    EvolvesTransitive(old(store.rows), stored, store.rows);
  }
}
