/**
  The memory budget of src/gateway.rs: one permit per exchange, held through a counted
  reference by everything that can still keep upload bytes alive.

  The steps are those of the handler, of the upstream task and of the transport. They
  happen in any order that ownership permits; a handler may be dropped at any time.
 */
module GatewayBudget {
  import opened Sums
  import opened GatewayBody

  const EXCHANGE_BUFFER_BYTES := 2 * MAX_BODY_BYTES
  const BUFFER_BUDGET_BYTES := 128 * 1024 * 1024
  const MAX_EXCHANGES := BUFFER_BUDGET_BYTES / EXCHANGE_BUFFER_BYTES

  /** The handler owns the growing buffer (and, while it grows, the next one), or waits for the upstream. */
  datatype Handler = Gone | Collecting(capacity: nat, next: nat) | Waiting

  /**
    A reservation: its reference count, and what is alive of its exchange. `handles` counts
    the references to the collected upload, of which the request body holds one until it
    has yielded it.
   */
  datatype Exchange = Exchange(references: nat, handler: Handler, body: bool, inBody: bool, upload: nat, handles: nat,
                               response: bool)

  function One(b: bool): nat {
    if b then 1 else 0
  }

  /** The upload bytes that an exchange keeps in memory. */
  function BytesHeld(e: Exchange): nat {
    (if e.handler.Collecting? then e.handler.capacity + e.handler.next else 0) + (if e.handles > 0 then e.upload else 0)
  }

  /** What holds a reference: the handler, the request body, the upload's memory and the response body. */
  function Holders(e: Exchange): nat {
    One(!e.handler.Gone?) + One(e.body) + One(e.handles > 0) + One(e.response)
  }

  predicate Consistent(e: Exchange) {
    && (e.handler.Collecting? ==>
          && e.handler.capacity <= MAX_BODY_BYTES && e.handler.next <= MAX_BODY_BYTES
          && !e.body && e.handles == 0 && !e.response)
    && (e.response ==> e.handler.Gone?)
    && (e.inBody ==> e.body && e.handles > 0)
    && e.upload <= MAX_BODY_BYTES
  }

  predicate ExchangeOk(e: Exchange) {
    e.references > 0 && e.references == Holders(e) && Consistent(e)
  }

  ghost function Holdings(exchanges: map<nat, Exchange>): (f: map<nat, nat>)
    ensures f.Keys == exchanges.Keys
  {
    map id | id in exchanges :: BytesHeld(exchanges[id])
  }

  lemma {:induction false} SumBounded(s: set<nat>, f: map<nat, nat>)
    requires s <= f.Keys && forall k :: k in s ==> f[k] <= EXCHANGE_BUFFER_BYTES
    ensures Sum(s, f) <= |s| * EXCHANGE_BUFFER_BYTES
    decreases |s|
  {
    if s != {} {
      SumBounded(s - {Pick(s)}, f);
    }
  }

  datatype Event =
    | Arrive
    | StartGrowth(id: nat, required: nat)
    | EndGrowth(id: nat)
    | Submit(id: nat)
    | Yield(id: nat)
    | CloneBytes(id: nat)
    | DropBytes(id: nat)
    | DropBody(id: nat)
    | Respond(id: nat)
    | DropHandler(id: nat)
    | DropResponse(id: nat)
  {
    predicate OfHandler() {
      StartGrowth? || EndGrowth? || Submit? || Respond? || DropHandler? || DropResponse?
    }
  }

  /** A new request: its handler collects, and nothing else is alive. */
  const NewExchange := Exchange(1, Collecting(0, 0), false, false, 0, 0, false)

  /** What is alive of an exchange after an event, whatever the count of references says. */
  function Effect(e: Exchange, event: Event): Exchange {
    match event
    case Arrive =>
      e
    case StartGrowth(_, required) =>
      if e.handler.Collecting? && e.handler.next == 0 && e.handler.capacity < required <= MAX_BODY_BYTES then
        e.(handler := Collecting(e.handler.capacity, NextCapacity(e.handler.capacity, required)))
      else
        e
    case EndGrowth(_) =>
      if e.handler.Collecting? && e.handler.next > 0 then e.(handler := Collecting(e.handler.next, 0)) else e
    case Submit(_) =>
      if e.handler.Collecting? && e.handler.next == 0 then
        e.(handler := Waiting, body := true, inBody := true, upload := e.handler.capacity, handles := 1)
      else
        e
    case Yield(_) =>
      e.(inBody := false)
    case CloneBytes(_) =>
      if e.handles > 0 then e.(handles := e.handles + 1) else e
    case DropBytes(_) =>
      if e.handles > One(e.inBody) then e.(handles := e.handles - 1) else e
    case DropBody(_) =>
      if e.body && e.handles >= One(e.inBody) then
        e.(body := false, inBody := false, handles := e.handles - One(e.inBody))
      else
        e
    case Respond(_) =>
      if e.handler.Waiting? then e.(handler := Gone, response := true) else e
    case DropHandler(_) =>
      e.(handler := Gone)
    case DropResponse(_) =>
      e.(response := false)
  }

  predicate IsDrop(event: Event) {
    event.DropHandler? || event.DropResponse? || event.DropBody? || event.DropBytes?
  }

  /** What a drop leaves: its holder is gone, and nothing else came or went. */
  predicate Dropped(e: Exchange, event: Event, f: Exchange) {
    && (f.handler.Gone? <==> e.handler.Gone? || event.DropHandler?)
    && (f.response <==> e.response && !event.DropResponse?)
    && (f.body <==> e.body && !event.DropBody?)
    && f.handles <= e.handles && (event.DropBytes? && !e.body && e.handles > 0 ==> f.handles < e.handles)
  }

  lemma DropsRemove(e: Exchange, event: Event, n: nat)
    requires ExchangeOk(e) && IsDrop(event)
    ensures Dropped(e, event, Effect(e, event)) && Dropped(e, event, Effect(e, event).(references := n))
  {
  }

  /**
    The upload bytes at an event: a growth adds the next buffer and then frees the old one,
    sending hands the buffer over, and passing bytes on or answering frees none.
   */
  lemma BytesMove(e: Exchange, event: Event)
    requires ExchangeOk(e)
    ensures var f := Effect(e, event);
            match event
            case StartGrowth(_, required) =>
              e.handler.Collecting? && e.handler.next == 0 && e.handler.capacity < required <= 8 * 1024 * 1024 ==>
                f.handler.Collecting? && required <= f.handler.next && BytesHeld(f) == BytesHeld(e) + f.handler.next
            case EndGrowth(_) =>
              e.handler.Collecting? && e.handler.next > 0 ==>
                f.handler.Collecting? && f.handler.next == 0 && BytesHeld(f) == BytesHeld(e) - e.handler.capacity
            case Submit(_) =>
              e.handler.Collecting? && e.handler.next == 0 ==>
                f.handler.Waiting? && f.body && f.handles > 0 && BytesHeld(f) == BytesHeld(e)
            case Respond(_) =>
              BytesHeld(f) == BytesHeld(e) && (e.handler.Waiting? ==> f.handler.Gone? && f.response)
            case Yield(_) =>
              BytesHeld(f) == BytesHeld(e) && !f.inBody && f.handles == e.handles && f.body == e.body
            case CloneBytes(_) =>
              BytesHeld(f) == BytesHeld(e) && (e.handles > 0 ==> f.handles > e.handles)
            case _ =>
              BytesHeld(f) <= BytesHeld(e)
  {
  }

  /**
    The exchange at `id` is now `e`: with holders it stays, one reference each, and without
    any it is gone and its permit is free again. Nothing else changes.
   */
  ghost predicate Becomes(before: map<nat, Exchange>, permits: nat, id: nat, e: Exchange, after: map<nat, Exchange>,
                          left: nat)
  {
    if Holders(e) == 0 then
      after == before - {id} && left == permits + 1
    else
      after == before[id := e.(references := Holders(e))] && left == permits
  }

  lemma Unchanged(exchanges: map<nat, Exchange>, permits: nat, id: nat)
    requires id in exchanges && ExchangeOk(exchanges[id])
    ensures Becomes(exchanges, permits, id, exchanges[id], exchanges, permits)
  {
  }

  /** What the request body leaves. */
  lemma BodyGone(e: Exchange, id: nat)
    requires ExchangeOk(e) && e.body
    ensures !e.inBody ==>
      && Effect(e, DropBody(id)) == e.(body := false)
      && e.references == Holders(e.(body := false)) + 1 && Consistent(e.(body := false))
    ensures e.inBody ==>
      && ExchangeOk(e.(inBody := false)) && e.handles > 0
      && var rest := e.(inBody := false, handles := e.handles - 1);
         && Effect(e, DropBody(id)) == rest.(body := false) && Holders(rest) > 0
         && var gone := rest.(references := Holders(rest), body := false);
            gone.references == Holders(gone) + 1 && Consistent(gone)
  {
  }

  /** The count of references that was there before does not matter. */
  lemma BecomesSame(a: map<nat, Exchange>, p: nat, id: nat, e: Exchange, f: Exchange, b: map<nat, Exchange>, q: nat)
    requires Becomes(a, p, id, e, b, q) && f == e.(references := f.references)
    ensures Becomes(a, p, id, f, b, q)
  {
  }

  /** An exchange with holders is still there, with one reference for each. */
  lemma Remaining(before: map<nat, Exchange>, permits: nat, id: nat, e: Exchange, after: map<nat, Exchange>, left: nat)
    requires Becomes(before, permits, id, e, after, left) && Holders(e) > 0
    ensures id in after && after[id] == e.(references := Holders(e))
  {
  }

  lemma BecomesTwice(a: map<nat, Exchange>, p: nat, id: nat, e: Exchange, b: map<nat, Exchange>, q: nat,
                     f: Exchange, c: map<nat, Exchange>, r: nat)
    requires Holders(e) > 0 && Becomes(a, p, id, e, b, q) && Becomes(b, q, id, f, c, r)
    ensures Becomes(a, p, id, f, c, r)
  {
  }

  class Budget {
    var permits: nat
    var exchanges: map<nat, Exchange>
    var next: nat

    ghost predicate Valid()
      reads this
    {
      && permits + |exchanges| == MAX_EXCHANGES
      && (forall id :: id in exchanges ==> id < next && ExchangeOk(exchanges[id]))
    }

    constructor ()
      ensures Valid() && exchanges == map[]
    {
      permits, exchanges, next := MAX_EXCHANGES, map[], 0;
    }

    /** In every valid state all upload bytes together stay within the budget. */
    lemma WithinBudget()
      requires Valid()
      ensures Sum(exchanges.Keys, Holdings(exchanges)) <= BUFFER_BUDGET_BYTES
      ensures |exchanges| <= MAX_EXCHANGES
    {
      forall id | id in exchanges ensures Holdings(exchanges)[id] <= EXCHANGE_BUFFER_BYTES {
        assert ExchangeOk(exchanges[id]);
      }
      SumBounded(exchanges.Keys, Holdings(exchanges));
      assert |exchanges.Keys| == |exchanges|;
      assert |exchanges| * EXCHANGE_BUFFER_BYTES <= MAX_EXCHANGES * EXCHANGE_BUFFER_BYTES;
    }

    /** A new request takes a permit or is turned away. */
    method Admit() returns (id: nat, admitted: bool)
      requires Valid()
      modifies this
      ensures Valid() && (admitted <==> old(permits) > 0)
      ensures id == old(next) && id !in old(exchanges)
      ensures admitted ==> permits == old(permits) - 1 && exchanges == old(exchanges)[id := NewExchange]
      ensures !admitted ==> permits == old(permits) && exchanges == old(exchanges)
    {
      id := next;
      if permits == 0 {
        return id, false;
      }
      permits := permits - 1;
      exchanges := exchanges[id := NewExchange];
      next := next + 1;
      admitted := true;
    }

    predicate Others(id: nat)
      reads this
    {
      && id in exchanges && permits + |exchanges| == MAX_EXCHANGES
      && forall i :: i in exchanges ==> i < next && (i != id ==> ExchangeOk(exchanges[i]))
    }

    method Update(id: nat, e: Exchange)
      requires Others(id) && ExchangeOk(e)
      modifies this`exchanges
      ensures Valid() && exchanges == old(exchanges)[id := e]
      ensures Becomes(old(exchanges), permits, id, e, exchanges, permits)
    {
      exchanges := exchanges[id := e];
    }

    /**
      Drops the reference of a holder that is already gone from `e`; the last one returns the
      permit, and no bytes are left then.
     */
    method Release(id: nat, e: Exchange)
      requires Others(id) && e.references == Holders(e) + 1 && Consistent(e)
      modifies this`permits, this`exchanges
      ensures Valid() && Becomes(old(exchanges), old(permits), id, e, exchanges, permits)
      ensures e.references == 1 <==> id !in exchanges
      ensures id !in exchanges ==> BytesHeld(e) == 0
    {
      if e.references == 1 {
        assert (exchanges - {id}).Keys == exchanges.Keys - {id};
        assert |(exchanges - {id}).Keys| == |exchanges.Keys| - 1;
        exchanges := exchanges - {id};
        permits := permits + 1;
      } else {
        exchanges := exchanges[id := e.(references := e.references - 1)];
      }
    }

    /** One event, if it can happen. Counting references one by one keeps as many as there are holders. */
    method Happen(event: Event)
      requires Valid()
      modifies this
      ensures Valid()
      ensures event.Arrive? && old(permits) > 0 ==>
        && old(next) !in old(exchanges)
        && exchanges == old(exchanges)[old(next) := NewExchange] && permits == old(permits) - 1
      ensures event.Arrive? && old(permits) == 0 ==> exchanges == old(exchanges) && permits == old(permits)
      ensures !event.Arrive? && event.id !in old(exchanges) ==> exchanges == old(exchanges) && permits == old(permits)
      ensures !event.Arrive? && event.id in old(exchanges) ==>
        Becomes(old(exchanges), old(permits), event.id, Effect(old(exchanges)[event.id], event), exchanges, permits)
    {
      if event.Arrive? {
        var _, _ := Admit();
        return;
      }
      if event.id !in exchanges {
        return;
      }
      hide Becomes, Effect, ExchangeOk;
      if event.OfHandler() {
        HandlerEvent(event, exchanges[event.id]);
      } else {
        UploadEvent(event, exchanges[event.id]);
      }
    }

    /** An event of the handler, or of the response that it returns. */
    method HandlerEvent(event: Event, e: Exchange)
      requires Valid() && event.OfHandler() && event.id in exchanges && exchanges[event.id] == e
      modifies this`permits, this`exchanges
      ensures Valid() && Becomes(old(exchanges), old(permits), event.id, Effect(e, event), exchanges, permits)
    {
      var id := event.id;
      hide Becomes;
      Unchanged(exchanges, permits, id);
      match event {
        case StartGrowth(_, required) =>
          if e.handler.Collecting? && e.handler.next == 0 && e.handler.capacity < required <= MAX_BODY_BYTES {
            Update(id, e.(handler := Collecting(e.handler.capacity, NextCapacity(e.handler.capacity, required))));
          }
        case EndGrowth(_) =>
          if e.handler.Collecting? && e.handler.next > 0 {
            Update(id, e.(handler := Collecting(e.handler.next, 0)));
          }
        case Submit(_) =>
          if e.handler.Collecting? && e.handler.next == 0 {
            // One clone for the body, and one for the owner of its bytes.
            Update(id, e.(references := e.references + 2, handler := Waiting, body := true, inBody := true,
                          upload := e.handler.capacity, handles := 1));
          }
        case Respond(_) =>
          if e.handler.Waiting? {
            Update(id, e.(handler := Gone, response := true));
          }
        case DropHandler(_) =>
          if !e.handler.Gone? {
            Release(id, e.(handler := Gone));
          }
        case DropResponse(_) =>
          if e.response {
            Release(id, e.(response := false));
          }
      }
    }

    /** An event of the upstream task or of the transport. */
    method UploadEvent(event: Event, e: Exchange)
      requires Valid() && !event.Arrive? && !event.OfHandler() && event.id in exchanges && exchanges[event.id] == e
      modifies this`permits, this`exchanges
      ensures Valid() && Becomes(old(exchanges), old(permits), event.id, Effect(e, event), exchanges, permits)
    {
      var id := event.id;
      hide Becomes;
      Unchanged(exchanges, permits, id);
      match event {
        case Yield(_) =>
          Update(id, e.(inBody := false));
        case CloneBytes(_) =>
          if e.handles > 0 {
            Update(id, e.(handles := e.handles + 1));
          }
        case DropBytes(_) =>
          if e.handles > One(e.inBody) {
            assert Effect(e, event) == e.(handles := e.handles - 1);
            DropHandle(id, e);
          }
        case DropBody(_) =>
          if e.body {
            assert event == Event.DropBody(id);
            DropBody(id, e);
          }
      }
    }

    /** A request body that has not yielded its bytes drops them too. */
    method DropBody(id: nat, e: Exchange)
      requires Valid() && id in exchanges && exchanges[id] == e && e.body
      modifies this`permits, this`exchanges
      ensures Valid()
      ensures Becomes(old(exchanges), old(permits), id, Effect(e, Event.DropBody(id)), exchanges, permits)
    {
      hide Effect, Becomes, Holders, Consistent, ExchangeOk, BytesHeld;
      BodyGone(e, id);
      if e.inBody {
        var rest := e.(inBody := false);
        DropHandle(id, rest);
        Remaining(old(exchanges), old(permits), id, rest.(handles := e.handles - 1), exchanges, permits);
        ghost var dropped, left := exchanges, permits;
        var gone := exchanges[id].(body := false);
        Release(id, gone);
        BecomesTwice(old(exchanges), old(permits), id, rest.(handles := e.handles - 1), dropped, left,
                     gone, exchanges, permits);
        BecomesSame(old(exchanges), old(permits), id, gone, Effect(e, Event.DropBody(id)), exchanges, permits);
      } else {
        Release(id, e.(body := false));
      }
    }

    /** A drop that happens to an exchange. */
    method Drop(event: Event)
      requires Valid() && IsDrop(event) && event.id in exchanges
      modifies this
      ensures Valid()
      ensures if event.id in exchanges then
                && Dropped(old(exchanges)[event.id], event, exchanges[event.id])
                && exchanges - {event.id} == old(exchanges) - {event.id} && permits == old(permits)
              else
                exchanges == old(exchanges) - {event.id} && permits == old(permits) + 1
    {
      hide Effect, ExchangeOk, Dropped, Holders;
      var e := exchanges[event.id];
      DropsRemove(e, event, Holders(Effect(e, event)));
      Happen(event);
    }

    /** The handler, the response, the request body and every reference to its bytes go, one by one. */
    method DropAll(id: nat)
      requires Valid() && id in exchanges
      modifies this
      ensures Valid() && exchanges == old(exchanges) - {id} && permits == old(permits) + 1
      ensures exchanges.Keys == old(exchanges.Keys) - {id}
    {
      hide Effect, Becomes;
      var drops := [Event.DropHandler(id), Event.DropResponse(id), Event.DropBody(id)];
      var step := 0;
      while id in exchanges && step < 3
        invariant step <= 3 && Valid() && Left(old(exchanges), old(permits), id)
        invariant id in exchanges ==>
          && (step > 0 ==> exchanges[id].handler.Gone?) && (step > 1 ==> !exchanges[id].response)
          && (step > 2 ==> !exchanges[id].body)
        decreases 3 - step
      {
        Drop(drops[step]);
        step := step + 1;
      }
      while id in exchanges
        invariant Valid() && Left(old(exchanges), old(permits), id)
        invariant id in exchanges ==>
          exchanges[id].handler.Gone? && !exchanges[id].response && !exchanges[id].body
        decreases if id in exchanges then exchanges[id].handles + 1 else 0
      {
        assert ExchangeOk(exchanges[id]);
        Drop(Event.DropBytes(id));
      }
      assert (old(exchanges) - {id}).Keys == old(exchanges.Keys) - {id};
    }

    /** Only the exchange at `id` may have changed, or it is gone and its permit is free. */
    ghost predicate Left(before: map<nat, Exchange>, left: nat, id: nat)
      reads this
    {
      if id in exchanges then exchanges - {id} == before - {id} && permits == left
      else exchanges == before - {id} && permits == left + 1
    }

    /** One reference to the upload's memory goes; with the last one the memory and its reservation go. */
    method DropHandle(id: nat, e: Exchange)
      requires Others(id) && ExchangeOk(e) && e.handles > One(e.inBody)
      modifies this`permits, this`exchanges
      ensures Valid() && Becomes(old(exchanges), old(permits), id, e.(handles := e.handles - 1), exchanges, permits)
    {
      if e.handles == 1 {
        Release(id, e.(handles := 0));
      } else {
        Update(id, e.(handles := e.handles - 1));
      }
    }
  }

  /**
    After any events, and with everything dropped that is then alive of every exchange, all
    permits are free again.
   */
  method AllDropped(events: seq<Event>) returns (permits: nat, exchanges: map<nat, Exchange>)
    ensures permits == MAX_EXCHANGES && exchanges == map[]
  {
    hide ExchangeOk;
    var budget := new Budget();
    for i := 0 to |events|
      invariant fresh(budget) && budget.Valid()
    {
      budget.Happen(events[i]);
    }
    var todo := budget.exchanges.Keys;
    while todo != {}
      invariant fresh(budget) && budget.Valid() && budget.exchanges.Keys == todo
      decreases |todo|
    {
      var id :| id in todo;
      budget.DropAll(id);
      todo := todo - {id};
    }
    return budget.permits, budget.exchanges;
  }

  /** After any events, free permits and live reservations make up the budget, and the upload bytes stay within it. */
  method AnyEvents(events: seq<Event>) returns (permits: nat, exchanges: map<nat, Exchange>)
    ensures permits + |exchanges| == MAX_EXCHANGES
    ensures forall id :: id in exchanges ==> ExchangeOk(exchanges[id])
    ensures Sum(exchanges.Keys, Holdings(exchanges)) <= BUFFER_BUDGET_BYTES
  {
    hide ExchangeOk, Holdings;
    var budget := new Budget();
    for i := 0 to |events|
      invariant fresh(budget) && budget.Valid()
    {
      budget.Happen(events[i]);
    }
    budget.WithinBudget();
    return budget.permits, budget.exchanges;
  }
}
