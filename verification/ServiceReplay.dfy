/** The replay window: which requests a run refuses as repeated. */
module ServiceReplay {
  import opened Basics
  import opened Service
  import opened ServiceSteps
  import opened ServiceRuns
  import opened Text
  import Wire

  function LastIds(ids: seq<string>): seq<string> {
    if |ids| <= MAX_RECENT_REQUESTS then ids else ids[|ids| - MAX_RECENT_REQUESTS..]
  }

  /** The ids of the requests a run accepted, in order: authorised, and not among the last 256 accepted before. */
  function AcceptedIds(inputs: seq<Input>): seq<string> {
    if inputs == [] then []
    else
      var before, last := AcceptedIds(inputs[..|inputs| - 1]), inputs[|inputs| - 1];
      if last.Frame? && Authorised(last.frame, last.context) && Request(last.frame).requestId !in LastIds(before)
      then before + [Request(last.frame).requestId]
      else before
  }

  ghost predicate HoldsWindow(st: ServiceState, ids: seq<string>) {
    st.recentIds == LastIds(ids) && Distinct(st.recentIds)
      && (forall id :: id in st.recentIdSet <==> id in st.recentIds)
  }

  /** The queue and the set hold the same ids, without repetition: the last 256 that were accepted. */
  lemma {:induction false} WindowExactly(inputs: seq<Input>)
    ensures HoldsWindow(StateAfter(inputs), AcceptedIds(inputs))
      && |StateAfter(inputs).recentIds| <= MAX_RECENT_REQUESTS
  {
    hide HoldsWindow, Next, Authorised, LastIds;
    if inputs == [] {
      assert HoldsWindow(START, []) by { EmptyWindow(); }
    } else {
      var before, last := inputs[..|inputs| - 1], inputs[|inputs| - 1];
      WindowExactly(before);
      NextWindow(StateAfter(before), AcceptedIds(before), last, before);
    }
    WindowSize(StateAfter(inputs), AcceptedIds(inputs));
  }

  lemma EmptyWindow()
    ensures HoldsWindow(START, [])
  {
  }

  lemma WindowSize(st: ServiceState, ids: seq<string>)
    requires HoldsWindow(st, ids)
    ensures |st.recentIds| <= MAX_RECENT_REQUESTS
  {
  }

  lemma NextWindow(st: ServiceState, ids: seq<string>, input: Input, before: seq<Input>)
    requires HoldsWindow(st, ids) && st == StateAfter(before)
    ensures
      if input.Frame? && Authorised(input.frame, input.context) && Request(input.frame).requestId !in LastIds(ids)
      then HoldsWindow(Next(st, input), ids + [Request(input.frame).requestId])
      else HoldsWindow(Next(st, input), ids)
  {
    hide LastIds, Distinct, Remembered, Execute, Wire.DecodeRequest, Sound, IdsValid, StateAfter;
    if input.Frame? {
      if Executed(st, input.frame, input.context) {
        var request := Request(input.frame);
        RunSound(before);
        FrameExecutes(st, input.frame, input.context, input.env);
        DecodedIds(input.frame);
        RememberedSound(st, request.requestId);
        Executes(Remembered(st, request.requestId), request.requestId, request.command, input.env);
        RememberWindow(st, ids, request.requestId);
      } else {
        OthersChangeNothing(st, input.frame, input.context, input.env);
      }
    }
  }

  lemma LastIdsSlide(ids: seq<string>, id: string)
    ensures var window := LastIds(ids);
      LastIds(ids + [id]) == (if |window| == MAX_RECENT_REQUESTS then window[1..] else window) + [id]
  {
  }

  lemma Tail(queue: seq<string>)
    requires queue != [] && Distinct(queue)
    ensures Distinct(queue[1..]) && forall x :: x in queue[1..] <==> x in queue && x != queue[0]
  {
    forall x ensures x in queue[1..] <==> x in queue && x != queue[0] {
      if x in queue && x != queue[0] {
        var i :| 0 <= i < |queue| && queue[i] == x;
        assert queue[1..][i - 1] == x;
      }
    }
  }

  lemma OneMoreId(queue: seq<string>, known: set<string>, id: string)
    requires Distinct(queue) && id !in queue && forall x :: x in known <==> x in queue
    ensures Distinct(queue + [id]) && forall x :: x in known + {id} <==> x in queue + [id]
  {
  }

  /** Forgetting the oldest id and taking the new one slides the window by one. */
  lemma RememberWindow(st: ServiceState, ids: seq<string>, id: string)
    requires HoldsWindow(st, ids) && id !in st.recentIdSet
    ensures HoldsWindow(Remembered(st, id), ids + [id])
  {
    hide LastIds, Distinct;
    LastIdsSlide(ids, id);
    var queue := st.recentIds;
    if |queue| == MAX_RECENT_REQUESTS {
      Tail(queue);
      OneMoreId(queue[1..], st.recentIdSet - {queue[0]}, id);
    } else {
      OneMoreId(queue, st.recentIdSet, id);
    }
  }

  /** An authorised request is refused as repeated exactly when its id is among the last 256 accepted. */
  lemma RefusedExactly(inputs: seq<Input>, frame: Bytes, context: AuthorizationContext, env: Env)
    ensures FrameStep(StateAfter(inputs), frame, context, env).1.code == "DUPLICATE_REQUEST"
      <==> Authorised(frame, context) && Request(frame).requestId in LastIds(AcceptedIds(inputs))
    ensures FrameStep(StateAfter(inputs), frame, context, env).1.code == "UNAUTHORIZED"
      <==> Wire.DecodeRequest(frame).Ok? && !context.IsAllowed()
  {
    hide LastIds, Distinct, FrameStep, Wire.DecodeRequest, Sound, StateAfter, AcceptedIds, Encodable;
    var st := StateAfter(inputs);
    WindowExactly(inputs);
    RunSound(inputs);
    if Executed(st, frame, context) {
      FrameExecutes(st, frame, context, env);
    } else {
      OthersChangeNothing(st, frame, context, env);
      assert |"INVALID_REQUEST"| != |"DUPLICATE_REQUEST"| && |"INVALID_REQUEST"| != |"UNAUTHORIZED"|
        && |"UNAUTHORIZED"| != |"DUPLICATE_REQUEST"|;
    }
  }

  /** A refused request changes nothing at all. */
  lemma RefusedChangesNothing(inputs: seq<Input>, frame: Bytes, context: AuthorizationContext, env: Env)
    requires IsRefusal(FrameStep(StateAfter(inputs), frame, context, env).1.code)
    ensures StateAfter(inputs + [Frame(frame, context, env)]) == StateAfter(inputs)
  {
    hide FrameStep, Wire.DecodeRequest, Sound, StateAfter, Encodable;
    NextInput(inputs, Frame(frame, context, env));
    RunSound(inputs);
    if Executed(StateAfter(inputs), frame, context) {
      FrameExecutes(StateAfter(inputs), frame, context, env);
    } else {
      OthersChangeNothing(StateAfter(inputs), frame, context, env);
    }
  }

  /** The same id is accepted twice only with more than 255 other accepted requests in between. */
  lemma {:induction false} RepeatsFarApart(inputs: seq<Input>, i: nat, j: nat)
    requires i < j < |AcceptedIds(inputs)| && AcceptedIds(inputs)[i] == AcceptedIds(inputs)[j]
    ensures j - i > MAX_RECENT_REQUESTS
    decreases |inputs|
  {
    hide Authorised;
    var before := AcceptedIds(inputs[..|inputs| - 1]);
    if j < |before| {
      RepeatsFarApart(inputs[..|inputs| - 1], i, j);
    } else {
      var window := LastIds(before);
      var start := |before| - |window|;
      forall k | start <= k < |before| ensures before[k] in window { assert window[k - start] == before[k]; }
    }
  }
}
