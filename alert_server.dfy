/** The alert relay endpoint (`POST /api/alert`): a cooldown gate in front of one
    call to the messaging provider.

    The two inputs that the handler takes from the outside world become
    parameters: the current time `now` (milliseconds, an integer) and the
    outcome of the provider call. Requests are handled one after another.
 */
module AlertServer {
  import opened Wrappers

  /** The cooldown, named `ONE_MINUTE` by the handler although it is 10 * 1000 ms. */
  const Cooldown: int := 10 * 1000

  const RateLimitError: string := "You must wait 1 minute between SMS messages"
  const SendFailedError: string := "Failed to send SMS"
  const SentMessage: string := "SMS sent successfully"

  // The fixed pieces of the outbound alert text, in order.
  const TextLead: string := "An individual is currently speeding on street \""
  const TextAfterStreet: string := "\", coordinates: "
  const TextAfterCoordinates: string := " at "
  const TextTail: string := "km/h."

  /** Whatever the provider's HTTP call resolved to. Any status counts: the call
      only fails when it throws. */
  datatype Reply = Reply(status: int, body: string)

  /** The outcome of the one provider call a request may make. */
  datatype Outcome = Returned(reply: Reply) | Threw

  /** The JSON body of a response. */
  datatype Payload =
    | ErrorPayload(error: string)
    | SentPayload(message: string, response: Reply)

  /** The three responses of the handler. */
  datatype Response = RateLimited | Sent(reply: Reply) | Failed
  {
    /** The HTTP status code of the response. */
    function Status(): (code: int)
      ensures code == 429 <==> RateLimited?
      ensures code == 200 <==> Sent?
      ensures code == 500 <==> Failed?
    {
      match this
      case RateLimited => 429
      case Sent(_) => 200
      case Failed => 500
    }

    /** The JSON body of the response. */
    function Body(): (p: Payload)
      ensures p.ErrorPayload? <==> !Sent?
      ensures Sent? ==> p.response == reply && p.message == SentMessage
      ensures RateLimited? ==> p.error == RateLimitError
      ensures Failed? ==> p.error == SendFailedError
    {
      match this
      case RateLimited => ErrorPayload(RateLimitError)
      case Sent(r) => SentPayload(SentMessage, r)
      case Failed => ErrorPayload(SendFailedError)
    }
  }

  /** One inbound request: the arrival time, the three body fields (already text)
      and what the provider call would do if it were made. */
  datatype Request = Request(now: int, street: string, coordinates: string, speed: string, outcome: Outcome)

  /** What one request does: the stored timestamp afterwards, the response, and
      the text handed to the provider, if the provider was called. */
  datatype Transition = Transition(last: Option<int>, response: Response, dispatched: Option<string>)

  /** JavaScript truthiness of the stored timestamp: both null and 0 are falsy. */
  predicate Truthy(last: Option<int>)
  {
    last.Some? && last.value != 0
  }

  /** The two states of the gate. */
  datatype Mode = Idle | Cooling

  /** The state of the gate at time `now`. The elapsed time is compared with a
      signed `<`, so a clock that went backwards reads as cooling. */
  function ModeAt(last: Option<int>, now: int): (m: Mode)
    ensures !Truthy(last) ==> m == Idle
    ensures Truthy(last) ==> (m == Idle <==> last.value + Cooldown <= now)
  {
    if Truthy(last) && now - last.value < Cooldown then Cooling else Idle
  }

  /** Once the gate is open at some time, it stays open at every later time as
      long as the stored timestamp does not change. */
  lemma IdleIsMonotone(last: Option<int>, now: int, later: int)
    requires ModeAt(last, now) == Idle && now <= later
    ensures ModeAt(last, later) == Idle
  {
  }

  /** The alert text handed to the provider. */
  function AlertText(street: string, coordinates: string, speed: string): string
  {
    TextLead + street + TextAfterStreet + coordinates + TextAfterCoordinates + speed + TextTail
  }

  /** The three fields are embedded verbatim between the fixed pieces of the
      alert template, in order, and nothing else is added. */
  lemma AlertTextLayout(street: string, coordinates: string, speed: string)
    ensures var text := AlertText(street, coordinates, speed);
      && |text| == |TextLead| + |street| + |TextAfterStreet| + |coordinates|
                   + |TextAfterCoordinates| + |speed| + |TextTail|
      && text[..|TextLead|] == TextLead
      && text[|TextLead|..|TextLead| + |street|] == street
      && text[|TextLead| + |street|..|TextLead| + |street| + |TextAfterStreet|] == TextAfterStreet
      && text[|TextLead| + |street| + |TextAfterStreet|..|TextLead| + |street| + |TextAfterStreet| + |coordinates|]
         == coordinates
      && text[|text| - |TextTail| - |speed| - |TextAfterCoordinates|..|text| - |TextTail| - |speed|]
         == TextAfterCoordinates
      && text[|text| - |TextTail| - |speed|..|text| - |TextTail|] == speed
      && text[|text| - |TextTail|..] == TextTail
  {
  }

  /** The fields are not escaped, so two different reports can give the same text. */
  lemma AlertTextIsAmbiguous()
    ensures AlertText("Main St", "1 at 2", "3") == AlertText("Main St", "1", "2 at 3")
  {
  }

  /** One request against the stored timestamp `last`: reject while cooling,
      otherwise call the provider once; store the request's own arrival time only
      when the call did not throw. */
  function Handle(last: Option<int>, req: Request): (t: Transition)
    ensures t.response == RateLimited <==> ModeAt(last, req.now) == Cooling
    ensures t.response == RateLimited ==> t.last == last && t.dispatched == None
    ensures t.response != RateLimited ==> t.dispatched == Some(AlertText(req.street, req.coordinates, req.speed))
    ensures t.response.Sent? <==> ModeAt(last, req.now) == Idle && req.outcome.Returned?
    ensures t.response.Sent? ==> t.response.reply == req.outcome.reply && t.last == Some(req.now)
    ensures t.response == Failed <==> ModeAt(last, req.now) == Idle && req.outcome == Threw
    ensures !t.response.Sent? ==> t.last == last
  {
    if ModeAt(last, req.now) == Cooling then
      Transition(last, RateLimited, None)
    else
      var text := AlertText(req.street, req.coordinates, req.speed);
      match req.outcome
      case Returned(reply) => Transition(Some(req.now), Sent(reply), Some(text))
      case Threw => Transition(last, Failed, Some(text))
  }

  /** After a failed send the next request, at any time not before it, passes the
      gate and calls the provider again. */
  lemma RetryAfterFailure(last: Option<int>, first: Request, second: Request)
    requires Handle(last, first).response == Failed
    requires first.now <= second.now
    ensures Handle(Handle(last, first).last, second).response != RateLimited
    ensures Handle(Handle(last, first).last, second).dispatched.Some?
  {
  }

  /** A successful send stored as a non-zero timestamp rejects every request that
      arrives less than the cooldown after it, without calling the provider. */
  lemma RejectWithinCooldown(last: Option<int>, first: Request, second: Request)
    requires Handle(last, first).response.Sent? && first.now != 0
    requires second.now - first.now < Cooldown
    ensures Handle(Handle(last, first).last, second).response == RateLimited
    ensures Handle(Handle(last, first).last, second).dispatched == None
    ensures Handle(Handle(last, first).last, second).last == Some(first.now)
  {
  }

  // ---------------------------------------------------------------------------
  // Sequences of requests handled one after another.

  /** The stored timestamp after handling `reqs` in order, starting from `init`. */
  function LastAfter(init: Option<int>, reqs: seq<Request>): Option<int>
    decreases |reqs|
  {
    if reqs == [] then init
    else Handle(LastAfter(init, reqs[..|reqs| - 1]), reqs[|reqs| - 1]).last
  }

  /** The response to the request at index `j` of `reqs`. */
  function ResponseAt(init: Option<int>, reqs: seq<Request>, j: nat): Response
    requires j < |reqs|
  {
    Handle(LastAfter(init, reqs[..j]), reqs[j]).response
  }

  /** Handling request `j - 1` stores its arrival time if it was sent and leaves
      the stored timestamp alone otherwise. */
  lemma LastAfterStep(init: Option<int>, reqs: seq<Request>, j: nat)
    requires 0 < j <= |reqs|
    ensures LastAfter(init, reqs[..j])
         == if ResponseAt(init, reqs, j - 1).Sent? then Some(reqs[j - 1].now) else LastAfter(init, reqs[..j - 1])
  {
    assert reqs[..j][..j - 1] == reqs[..j - 1];
  }

  /** The response to a request does not depend on the requests after it. */
  lemma ResponseAtPrefix(init: Option<int>, reqs: seq<Request>, m: nat, j: nat)
    requires j < m <= |reqs|
    ensures ResponseAt(init, reqs[..m], j) == ResponseAt(init, reqs, j)
  {
    assert reqs[..m][..j] == reqs[..j];
  }

  /** Once a timestamp is stored it is never unset again. */
  lemma {:induction false} NeverUnset(init: Option<int>, reqs: seq<Request>)
    requires init.Some?
    ensures LastAfter(init, reqs).Some?
    decreases |reqs|
  {
    if reqs != [] {
      NeverUnset(init, reqs[..|reqs| - 1]);
    }
  }

  /** The stored timestamp is only ever written by a request that was sent: it is
      either the initial value or the arrival time of a sent request. */
  lemma {:induction false} OnlySendsWrite(init: Option<int>, reqs: seq<Request>)
    ensures LastAfter(init, reqs) == init
         || exists j :: 0 <= j < |reqs| && ResponseAt(init, reqs, j).Sent? && LastAfter(init, reqs) == Some(reqs[j].now)
    decreases |reqs|
  {
    if reqs != [] {
      var n := |reqs|;
      var front := reqs[..n - 1];
      assert reqs[..n - 1] == front;
      OnlySendsWrite(init, front);
      if ResponseAt(init, reqs, n - 1).Sent? {
        assert LastAfter(init, reqs) == Some(reqs[n - 1].now);
      } else if LastAfter(init, front) != init {
        var j :| 0 <= j < |front| && ResponseAt(init, front, j).Sent? && LastAfter(init, front) == Some(front[j].now);
        ResponseAtPrefix(init, reqs, n - 1, j);
        assert ResponseAt(init, reqs, j).Sent? && LastAfter(init, reqs) == Some(reqs[j].now);
      }
    }
  }

  /** Request `k` is the latest sent request before `j`: it was sent, no request
      after it up to (excluding) `j` was, and its arrival time is what request `j`
      finds stored. */
  predicate StoresLatestSend(init: Option<int>, reqs: seq<Request>, k: nat, j: nat)
    requires k < j <= |reqs|
  {
    && ResponseAt(init, reqs, k).Sent?
    && (forall m :: k < m < j ==> !ResponseAt(init, reqs, m).Sent?)
    && LastAfter(init, reqs[..j]) == Some(reqs[k].now)
  }

  /** When request `j - 1` was sent, it is the latest send before `j` and its
      arrival time is stored. */
  lemma LatestSendStarts(init: Option<int>, reqs: seq<Request>, j: nat)
    requires 0 < j <= |reqs| && ResponseAt(init, reqs, j - 1).Sent?
    ensures StoresLatestSend(init, reqs, j - 1, j)
  {
    LastAfterStep(init, reqs, j);
  }

  /** When request `j - 1` was not sent, the latest send and the stored timestamp
      stay where they were. */
  lemma LatestSendExtends(init: Option<int>, reqs: seq<Request>, k: nat, j: nat)
    requires k < j - 1 && j <= |reqs|
    requires StoresLatestSend(init, reqs, k, j - 1)
    requires !ResponseAt(init, reqs, j - 1).Sent?
    ensures StoresLatestSend(init, reqs, k, j)
  {
    LastAfterStep(init, reqs, j);
  }

  /** After a sent request `i`, the timestamp stored before any later request `j`
      is the arrival time of the latest sent request `k` with `i <= k < j`. */
  lemma {:induction false} LatestSend(init: Option<int>, reqs: seq<Request>, i: nat, j: nat) returns (k: nat)
    requires i < j <= |reqs|
    requires ResponseAt(init, reqs, i).Sent?
    ensures i <= k < j && StoresLatestSend(init, reqs, k, j)
    decreases j
  {
    if ResponseAt(init, reqs, j - 1).Sent? {
      LatestSendStarts(init, reqs, j);
      k := j - 1;
    } else {
      k := LatestSend(init, reqs, i, j - 1);
      LatestSendExtends(init, reqs, k, j);
    }
  }

  /** Two sent requests always arrive at least the cooldown apart, whatever the
      order of the arrival times, provided no sent request from the first up to
      the second arrived at time 0 (a stored 0 does not close the gate). */
  lemma {:induction false} SendsAreSpaced(init: Option<int>, reqs: seq<Request>, i: nat, j: nat)
    requires i < j < |reqs|
    requires forall k :: i <= k < j && ResponseAt(init, reqs, k).Sent? ==> reqs[k].now != 0
    requires ResponseAt(init, reqs, i).Sent? && ResponseAt(init, reqs, j).Sent?
    ensures reqs[j].now - reqs[i].now >= Cooldown
    decreases j
  {
    var k := LatestSend(init, reqs, i, j);
    assert reqs[j].now - reqs[k].now >= Cooldown;
    if k > i {
      SendsAreSpaced(init, reqs, i, k);
    }
  }

  // ---------------------------------------------------------------------------
  // The handler with its module-level state.

  /** The endpoint with its one piece of mutable state, `lastMessageTimestamp`.
      `History` records the requests handled so far and `Dispatched` the texts
      handed to the provider, in order. */
  class AlertEndpoint {
    var lastMessageTimestamp: Option<int>
    ghost var History: seq<Request>
    ghost var Dispatched: seq<string>

    ghost predicate Valid()
      reads this
    {
      lastMessageTimestamp == LastAfter(None, History)
    }

    /** The state at process start: no timestamp stored. */
    constructor ()
      ensures Valid()
      ensures lastMessageTimestamp == None && History == [] && Dispatched == []
    {
      lastMessageTimestamp := None;
      History := [];
      Dispatched := [];
    }

    /** Handles one `POST` request arriving at time `now`. */
    method Submit(now: int, street: string, coordinates: string, speed: string, outcome: Outcome)
      returns (response: Response)
      requires Valid()
      modifies this
      ensures Valid()
      ensures History == old(History) + [Request(now, street, coordinates, speed, outcome)]
      ensures response == ResponseAt(None, History, |old(History)|)
      ensures response == RateLimited <==> ModeAt(old(lastMessageTimestamp), now) == Cooling
      ensures response == RateLimited ==> Dispatched == old(Dispatched)
      ensures response != RateLimited ==> Dispatched == old(Dispatched) + [AlertText(street, coordinates, speed)]
      ensures response.Sent? <==> response != RateLimited && outcome.Returned?
      ensures response.Sent? ==> response.reply == outcome.reply
      ensures lastMessageTimestamp == if response.Sent? then Some(now) else old(lastMessageTimestamp)
    {
      var req := Request(now, street, coordinates, speed, outcome);
      History := History + [req];
      assert History[..|History| - 1] == old(History);
      var currentTime := now;
      if Truthy(lastMessageTimestamp) && currentTime - lastMessageTimestamp.value < Cooldown {
        response := RateLimited;
        return;
      }
      Dispatched := Dispatched + [AlertText(street, coordinates, speed)];
      match outcome {
        case Returned(reply) =>
          lastMessageTimestamp := Some(currentTime);
          response := Sent(reply);
        case Threw =>
          response := Failed;
      }
    }
  }

  /** Two identical requests two seconds apart: only the first reaches the
      provider; the second is turned away with status 429. */
  method TwoRequestsWithinCooldown(reply: Reply)
  {
    var endpoint := new AlertEndpoint();
    var first := endpoint.Submit(1_700_000_000_000, "Main St", "1.23,4.56", "120", Returned(reply));
    assert first.Status() == 200;
    var second := endpoint.Submit(1_700_000_002_000, "Main St", "1.23,4.56", "120", Returned(reply));
    assert second.Status() == 429 && second.Body() == ErrorPayload(RateLimitError);
    assert |endpoint.Dispatched| == 1;
  }

  /** A failed send does not start the cooldown: the immediate retry goes through. */
  method RetryImmediatelyAfterFailure(reply: Reply)
  {
    var endpoint := new AlertEndpoint();
    var first := endpoint.Submit(1_700_000_000_000, "Main St", "1.23,4.56", "120", Threw);
    assert first.Status() == 500 && first.Body() == ErrorPayload(SendFailedError);
    var second := endpoint.Submit(1_700_000_000_001, "Main St", "1.23,4.56", "120", Returned(reply));
    assert second.Status() == 200;
    assert |endpoint.Dispatched| == 2 && endpoint.lastMessageTimestamp == Some(1_700_000_000_001);
  }
}
