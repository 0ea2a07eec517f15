/** Probe histories: who was heard from when, and what a 50 ms timer that every probe re-arms makes of it. Times are
    in milliseconds. */
module Probes {
  import opened Ids

  const PROBE_INTERVAL := 25.0
  const EXPIRY := 50.0

  datatype Ping = Ping(endpoint: nat, at: real)

  function LastPing(h: seq<Ping>, endpoint: nat): Option<real> {
    if h == [] then None
    else if h[|h| - 1].endpoint == endpoint then Some(h[|h| - 1].at)
    else LastPing(h[..|h| - 1], endpoint)
  }

  /** Heard from less than 50 ms ago. */
  predicate Recent(h: seq<Ping>, endpoint: nat, now: real) {
    LastPing(h, endpoint).Some? && now - LastPing(h, endpoint).value < EXPIRY
  }

  /** The position of the ping that began the endpoint's present chain of pings less than 50 ms apart. */
  function Birth(h: seq<Ping>, endpoint: nat): nat
    requires LastPing(h, endpoint).Some?
  {
    var init, last := h[..|h| - 1], h[|h| - 1];
    if last.endpoint != endpoint then Birth(init, endpoint)
    else if Recent(init, endpoint, last.at) then Birth(init, endpoint)
    else |h| - 1
  }

  predicate Ordered(h: seq<Ping>, now: real) {
    && (forall i, j :: 0 <= i < j < |h| ==> h[i].at <= h[j].at)
    && (forall i :: 0 <= i < |h| ==> h[i].at <= now)
  }

  /** Some ping of the endpoint came after `since`. */
  ghost predicate HeardSince(h: seq<Ping>, endpoint: nat, since: real) {
    exists i :: 0 <= i < |h| && h[i].endpoint == endpoint && h[i].at > since
  }

  lemma HistoryAppend(h: seq<Ping>, p: Ping)
    ensures forall e :: LastPing(h + [p], e) == if e == p.endpoint then Some(p.at) else LastPing(h, e)
    ensures forall e :: LastPing(h + [p], e).Some? ==>
              Birth(h + [p], e) == if e == p.endpoint && !Recent(h, e, p.at) then |h| else Birth(h, e)
  {
    assert (h + [p])[..|h|] == h;
  }

  /** With a history in time order, recency does not depend on which ping was last. */
  lemma {:induction false} RecentIffSomeRecent(h: seq<Ping>, endpoint: nat, now: real)
    requires Ordered(h, now)
    ensures Recent(h, endpoint, now) <==> HeardSince(h, endpoint, now - EXPIRY)
  {
    if h != [] {
      var init, last := h[..|h| - 1], h[|h| - 1];
      RecentIffSomeRecent(init, endpoint, now);
      if HeardSince(h, endpoint, now - EXPIRY) {
        var i :| 0 <= i < |h| && h[i].endpoint == endpoint && h[i].at > now - EXPIRY;
        assert h[i].at <= last.at;
        assert i < |h| - 1 ==> init[i] == h[i];
      }
      if HeardSince(init, endpoint, now - EXPIRY) {
        var i :| 0 <= i < |init| && init[i].endpoint == endpoint && init[i].at > now - EXPIRY;
        assert h[i] == init[i];
      }
    }
  }
}
