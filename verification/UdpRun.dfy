/** Probe schedules: probes sent every 25 ms, a little late, each heard after its own delay, and what that does to a
    50 ms timer which every one of them re-arms. `UdpPair` runs the two services on them. */
module UdpRun {
  import opened Probes

  predicate Late(before: real, after: real, lateness: real) {
    PROBE_INTERVAL <= after - before <= PROBE_INTERVAL + lateness
  }

  // ---- One side of the protocol: probes sent at `sends`, heard `lo` to `hi` later ----

  predicate Echo(sends: seq<real>, heard: seq<real>, lateness: real, lo: real, hi: real) {
    && |heard| == |sends|
    && (sends != [] ==> sends[0] == 0.0)
    && (forall i :: 0 < i < |sends| ==> Late(sends[i - 1], sends[i], lateness))
    && (forall i :: 0 <= i < |sends| ==> lo <= heard[i] - sends[i] <= hi)
  }

  /** The next probe, which is not part of the run, has been sent by then. */
  function Horizon(sends: seq<real>, lateness: real): real
    requires sends != []
  {
    sends[|sends| - 1] + PROBE_INTERVAL + lateness
  }

  /** In what order the probes were heard: `at[k]` is the k-th, `place` is its inverse. */
  datatype Order = Order(at: seq<nat>, place: seq<nat>)

  predicate Sorts(o: Order, heard: seq<real>) {
    && |o.at| == |o.place| == |heard|
    && (forall k :: 0 <= k < |heard| ==> o.at[k] < |heard| && o.place[o.at[k]] == k)
    && (forall i :: 0 <= i < |heard| ==> o.place[i] < |heard| && o.at[o.place[i]] == i)
    && (forall j, k :: 0 <= j < k < |heard| ==> heard[o.at[j]] <= heard[o.at[k]])
  }

  lemma {:induction false} SendsGrow(sends: seq<real>, heard: seq<real>, lateness: real, lo: real, hi: real,
                                     i: nat, j: nat)
    requires Echo(sends, heard, lateness, lo, hi) && i < j < |sends|
    ensures sends[i] + PROBE_INTERVAL <= sends[j]
  {
    if i + 1 < j {
      SendsGrow(sends, heard, lateness, lo, hi, i, j - 1);
    }
    assert Late(sends[j - 1], sends[j], lateness);
  }

  /** The latest-sent among the first `k` heard. */
  lemma {:induction false} Newest(at: seq<nat>, k: nat) returns (m: nat, j: nat)
    requires 0 < k <= |at|
    ensures j < k && at[j] == m && forall i :: 0 <= i < k ==> at[i] <= m
  {
    if k == 1 {
      return at[0], 0;
    }
    m, j := Newest(at, k - 1);
    if at[k - 1] > m {
      m, j := at[k - 1], k - 1;
    }
  }

  /** After `k` probes were heard, the next one is heard, or the next one is due to be sent, in less than 50 ms. */
  lemma GapBelow(sends: seq<real>, heard: seq<real>, lateness: real, lo: real, hi: real, o: Order, k: nat)
    requires Echo(sends, heard, lateness, lo, hi) && Sorts(o, heard) && 0.0 <= lateness && 0.0 <= lo <= hi
    requires lateness + (hi - lo) < PROBE_INTERVAL
    requires 0 < k <= |heard|
    ensures (if k < |heard| then heard[o.at[k]] else Horizon(sends, lateness)) < heard[o.at[k - 1]] + EXPIRY
  {
    var m, j := Newest(o.at, k);
    assert heard[m] <= heard[o.at[k - 1]];
    if k < |heard| {
      var next := o.at[k];
      if next < m {
        SendsGrow(sends, heard, lateness, lo, hi, next, m);
      } else {
        assert o.place[m] == j && o.place[next] == k;
        assert o.at[o.place[m + 1]] == m + 1;
        assert Late(sends[m], sends[m + 1], lateness);
        assert heard[next] <= heard[m + 1];
      }
    } else {
      assert o.at[o.place[|heard| - 1]] == |heard| - 1;
    }
  }

  // ---- The exact bound ----

  /** A timer armed by every probe heard before `t` comes due at `t` or earlier. */
  ghost predicate Expires(heard: seq<real>, t: real) {
    && (exists i :: 0 <= i < |heard| && heard[i] < t)
    && (forall i :: 0 <= i < |heard| && heard[i] < t ==> heard[i] + EXPIRY <= t)
  }

  ghost predicate NeverExpires(lateness: real, lo: real, hi: real) {
    forall sends: seq<real>, heard: seq<real>, t: real ::
      Echo(sends, heard, lateness, lo, hi) && sends != [] && t <= Horizon(sends, lateness) ==> !Expires(heard, t)
  }

  lemma {:induction false} NewestBefore(heard: seq<real>, t: real, n: nat) returns (m: int)
    requires n <= |heard|
    ensures m < n && (m >= 0 ==> heard[m] < t)
    ensures forall i :: 0 <= i < n && heard[i] < t ==> i <= m
    ensures m >= -1
  {
    if n == 0 {
      return -1;
    }
    if heard[n - 1] < t {
      return n - 1;
    }
    m := NewestBefore(heard, t, n - 1);
  }

  lemma SteadyNeverExpires(sends: seq<real>, heard: seq<real>, lateness: real, lo: real, hi: real, t: real)
    requires Echo(sends, heard, lateness, lo, hi) && sends != [] && t <= Horizon(sends, lateness)
    requires 0.0 <= lo <= hi && lateness + (hi - lo) < PROBE_INTERVAL
    ensures !Expires(heard, t)
  {
    if exists i :: 0 <= i < |heard| && heard[i] < t {
      var m := NewestBefore(heard, t, |heard|);
      if m + 1 < |heard| {
        assert Late(sends[m], sends[m + 1], lateness);
      }
      assert heard[m] + EXPIRY > t;
    }
  }

  /** A first quick probe, then probes as late and as slow as they may be. */
  function LateSends(n: nat, lateness: real): (r: seq<real>)
    ensures |r| == n
  {
    if n == 0 then [] else LateSends(n - 1, lateness) + [LateSend(n - 1, lateness)]
  }

  function LateSend(i: nat, lateness: real): real {
    if i == 0 then 0.0 else LateSend(i - 1, lateness) + PROBE_INTERVAL + lateness
  }

  lemma {:induction false} LateSendAt(n: nat, lateness: real, i: nat)
    requires i < n && 0.0 <= lateness
    ensures LateSends(n, lateness)[i] == LateSend(i, lateness)
    ensures i > 0 ==> LateSend(i, lateness) >= PROBE_INTERVAL + lateness
    ensures LateSend(i, lateness) >= i as real
  {
    if i < n - 1 {
      LateSendAt(n - 1, lateness, i);
    }
    if i > 0 {
      LateSendAt(i, lateness, i - 1);
    }
  }

  lemma UnsteadyExpires(lateness: real, lo: real, hi: real) returns (sends: seq<real>, heard: seq<real>, t: real)
    requires 0.0 <= lateness && 0.0 <= lo <= hi && lateness + (hi - lo) >= PROBE_INTERVAL
    ensures Echo(sends, heard, lateness, lo, hi) && sends != [] && t <= Horizon(sends, lateness) && Expires(heard, t)
  {
    t := lo + EXPIRY;
    var n: nat := t.Floor + 2;
    sends := LateSends(n, lateness);
    heard := seq(n, i requires 0 <= i < n => if i == 0 then lo else LateSend(i, lateness) + hi);
    forall i | 0 <= i < n
      ensures sends[i] == LateSend(i, lateness)
      ensures i > 0 ==> heard[i] >= t
    {
      LateSendAt(n, lateness, i);
    }
    LateSendAt(n, lateness, n - 1);
    assert heard[0] < t;
  }

  /** The 50 ms timer never expires in any run, with any reordering, iff lateness and delay variation together stay
      below one probe interval. For the server the delay is that of the probe, for the client that of probe and
      reply. */
  lemma ExactBound(lateness: real, lo: real, hi: real)
    requires 0.0 <= lateness && 0.0 <= lo <= hi
    ensures NeverExpires(lateness, lo, hi) <==> lateness + (hi - lo) < PROBE_INTERVAL
  {
    if lateness + (hi - lo) < PROBE_INTERVAL {
      forall sends: seq<real>, heard: seq<real>, t: real
        | Echo(sends, heard, lateness, lo, hi) && sends != [] && t <= Horizon(sends, lateness)
        ensures !Expires(heard, t)
      {
        SteadyNeverExpires(sends, heard, lateness, lo, hi, t);
      }
    } else {
      var sends, heard, t := UnsteadyExpires(lateness, lo, hi);
      assert Echo(sends, heard, lateness, lo, hi) && Expires(heard, t);
    }
  }
}
