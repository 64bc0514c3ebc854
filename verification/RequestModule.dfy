/**
 The request module as an object (frontend/src/app/services/request.ts): the stored tokens, the shared
 refresh promise and the requests awaiting it. Its handlers are the browser steps of `BrowserRefresh`.
 */
module RequestModule {
  import opened Basics
  import opened BrowserRefresh

  class RequestModule {
    var access: Option<Token>
    var refresh: Option<Token>
    var refreshInFlight: Option<PostID>
    var requests: map<RequestID, Request>

    ghost function View(): Browser
      reads this
    {
      Browser(access, refresh, refreshInFlight, requests)
    }

    constructor ()
      ensures View() == INITIAL.browser
    {
      access, refresh, refreshInFlight, requests := None, None, None, map[];
    }

    method HandleUnauthorized()
      modifies this`access, this`refresh
      ensures View() == BrowserRefresh.HandleUnauthorized(old(View()))
    {
      access := None;
      refresh := None;
    }

    /** `handleError` for the final failure of a request. */
    method HandleError(r: RequestID, unauthorized: bool)
      requires r in requests
      modifies this`access, this`refresh, this`requests
      ensures View() == Finish(if unauthorized && old(requests)[r].path != LoginOrRefresh
                               then BrowserRefresh.HandleUnauthorized(old(View())) else old(View()), r)
    {
      if unauthorized && requests[r].path != LoginOrRefresh {
        HandleUnauthorized();
      }
      requests := requests[r := requests[r].(phase := Done)];
    }

    /** The response interceptor up to its await; `posted` is the token of a refresh POST it had to start. */
    method OnResponseError(r: RequestID, unauthorized: bool, p: PostID) returns (posted: Option<Token>)
      requires r in requests
      modifies this
      ensures View() == OnError(old(View()), r, unauthorized, p)
      ensures var q := old(requests)[r];
              var may := unauthorized && !q.retried && q.path == Plain;
              && requests == old(requests)[r := q.(phase := if may && old(refreshInFlight.Some? || refresh.Some?) then Waiting else Done)]
              && posted == (if may && old(refreshInFlight).None? then old(refresh) else None)
              && refreshInFlight == (if posted.Some? then Some(p) else old(refreshInFlight))
              && (if unauthorized && q.path != LoginOrRefresh && requests[r].phase == Done
                  then access == None && refresh == None else access == old(access) && refresh == old(refresh))
    {
      posted := None;
      var config := requests[r];
      if unauthorized && !config.retried && config.path == Plain {
        if refreshInFlight.None? {
          if refresh.None? {
            HandleError(r, true);
            return;
          }
          posted := refresh;
          refreshInFlight := Some(p);
        }
        requests := requests[r := config.(phase := Waiting)];
      } else {
        HandleError(r, unauthorized);
      }
    }

    /** One waiter continues after the refresh has settled. */
    method Continue(r: RequestID, next: Option<Token>)
      requires r in requests && requests[r].phase == Waiting && requests[r].path == Plain
      modifies this`access, this`refresh, this`requests
      ensures requests == old(requests)[r := Resumed(old(requests)[r], next.Some?)]
      ensures if next.Some? then access == old(access) && refresh == old(refresh) else access == None && refresh == None
    {
      if next.Some? {
        var config := requests[r];
        requests := requests[r := config.(retried := true, sends := config.sends + 1, phase := InAir)];
      } else {
        HandleError(r, true);
      }
    }

    /** The refresh settles: the tokens are stored, the promise is cleared, and the waiters continue in any order. */
    method SettleRefresh(next: Option<Token>)
      requires forall r | r in requests && requests[r].phase == Waiting :: requests[r].path == Plain
      modifies this
      ensures View() == Settle(old(View()), next)
      ensures refreshInFlight == None && (next.Some? ==> access == next && refresh == next)
      ensures requests.Keys == old(requests.Keys)
      ensures forall r | r in requests :: requests[r] ==
                if old(requests)[r].phase != Waiting then old(requests)[r]
                else if next.Some? then old(requests)[r].(retried := true, sends := old(requests)[r].sends + 1, phase := InAir)
                else old(requests)[r].(phase := Done)
    {
      if next.Some? {
        access := next;
        refresh := next;
      }
      refreshInFlight := None;
      ghost var before := requests;
      var todo := requests.Keys;
      ghost var woken := false;
      while todo != {}
        invariant todo <= before.Keys && requests.Keys == before.Keys
        invariant forall r | r in before :: requests[r] == if r in todo then before[r] else Resumed(before[r], next.Some?)
        invariant woken <==> exists r :: r in before && r !in todo && before[r].phase == Waiting
        invariant refreshInFlight == None
        invariant if next.Some? then access == next && refresh == next
                  else if woken then access == None && refresh == None
                  else access == old(access) && refresh == old(refresh)
        decreases |todo|
      {
        var r :| r in todo;
        if requests[r].phase == Waiting {
          Continue(r, next);
          woken := true;
        }
        todo := todo - {r};
      }
      assert requests == ResumeAll(before, next.Some?);
      assert woken <==> SomeoneWaits(old(View()));
    }
  }
}
