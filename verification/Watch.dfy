/** The certificate watcher: it loads again and again and sends on what has changed. */
module Watch {
  import opened Wire
  import opened Pems

  type Load = Option<ServerCerts>

  /** What is sent when `last` was sent before: the successful loads whose checksum differs from
      that of the last one sent. */
  function Filter(last: Load, loads: seq<Load>): seq<ServerCerts>
    decreases |loads|
  {
    if loads == [] then []
    else if loads[0].None? || (last.Some? && loads[0].value.checksum == last.value.checksum)
    then Filter(last, loads[1..])
    else [loads[0].value] + Filter(loads[0], loads[1..])
  }

  /** The position of the first successful load, or the number of loads. */
  function FirstSuccess(loads: seq<Load>): nat {
    if loads == [] || loads[0].Some? then 0 else 1 + FirstSuccess(loads[1..])
  }

  /** The last of several loads to succeed, or else `init`. */
  function LastSuccess(init: Load, loads: seq<Load>): (last: Load)
    ensures init.Some? ==> last.Some?
  {
    if loads == [] then init
    else if loads[|loads| - 1].Some? then loads[|loads| - 1]
    else LastSuccess(init, loads[..|loads| - 1])
  }

  function LastSent(init: Load, sent: seq<ServerCerts>): Load {
    if sent == [] then init else Some(sent[|sent| - 1])
  }

  /** `loads` are the results of the load function one after the other, as many as have been asked
      for so far. `sent` is what went down the channel and `used` the number of loads made;
      `returned` tells whether the watcher has given up. */
  method Run(refresh: int, init: Load, loads: seq<Load>) returns (sent: seq<ServerCerts>, used: nat, returned: bool)
    ensures refresh > 0 ==> sent == Filter(init, loads) && used == |loads| && !returned
    ensures refresh <= 0 ==>
      var first := FirstSuccess(loads);
      && returned == (first < |loads|)
      && used == (if returned then first + 1 else |loads|)
      && sent == Filter(init, loads[..used])
      && |sent| <= 1
  {
    var once := refresh <= 0;
    var last := init;
    sent, used, returned := [], 0, false;
    while used < |loads|
      invariant used <= |loads| && !returned
      invariant sent == Filter(init, loads[..used]) && last == LastSent(init, sent)
      invariant once ==> sent == [] && FirstSuccess(loads) >= used
    {
      var next := loads[used];
      FilterNext(init, loads[..used], next);
      assert loads[..used] + [next] == loads[..used + 1];
      if once { FirstSuccessAt(loads, used); }
      used := used + 1;
      if next.None? {
        continue;
      }
      if last.Some? {
        if next.value.checksum == last.value.checksum {
          if once && init.Some? {
            return sent, used, true;
          }
          continue;
        }
      }
      sent := sent + [next.value];
      last := next;
      if once {
        return sent, used, true;
      }
    }
    assert loads[..used] == loads;
  }

  lemma {:induction false} FirstSuccessAt(loads: seq<Load>, k: nat)
    requires k < |loads| && FirstSuccess(loads) >= k
    ensures FirstSuccess(loads) == k <==> loads[k].Some?
  {
    if k > 0 {
      FirstSuccessAt(loads[1..], k - 1);
    }
  }

  lemma {:induction false} FilterNext(init: Load, loads: seq<Load>, next: Load)
    ensures
      var last := LastSent(init, Filter(init, loads));
      Filter(init, loads + [next])
      == Filter(init, loads)
         + (if next.None? || (last.Some? && next.value.checksum == last.value.checksum) then [] else [next.value])
    decreases |loads|
  {
    if loads == [] {
      assert Filter(next, []) == [];
    } else {
      var kept := loads[0].None? || (init.Some? && loads[0].value.checksum == init.value.checksum);
      var last := if kept then init else loads[0];
      assert (loads + [next])[1..] == loads[1..] + [next];
      FilterNext(last, loads[1..], next);
      assert LastSent(init, Filter(init, loads)) == LastSent(last, Filter(last, loads[1..]));
    }
  }

  // ----- what a receiver sees -----

  /** After any number of loads the last certificates sent carry the checksum of the last
      successful load. */
  lemma {:induction false} SentIsCurrent(init: Load, loads: seq<Load>)
    ensures
      var sent, current := LastSent(init, Filter(init, loads)), LastSuccess(init, loads);
      sent.Some? == current.Some? && (sent.Some? ==> sent.value.checksum == current.value.checksum)
  {
    if loads != [] {
      var n := |loads| - 1;
      SentIsCurrent(init, loads[..n]);
      assert loads == loads[..n] + [loads[n]];
      FilterNext(init, loads[..n], loads[n]);
    }
  }

  /** Nothing is sent twice in a row. */
  lemma {:induction false} NoRepeats(init: Load, loads: seq<Load>, k: nat)
    requires k < |Filter(init, loads)|
    ensures
      var before := if k == 0 then init else Some(Filter(init, loads)[k - 1]);
      before.None? || before.value.checksum != Filter(init, loads)[k].checksum
    decreases |loads|
  {
    if loads[0].None? || (init.Some? && loads[0].value.checksum == init.value.checksum) {
      NoRepeats(init, loads[1..], k);
    } else if k > 0 {
      NoRepeats(loads[0], loads[1..], k - 1);
    }
  }

  /** Where the checksum changes from one successful load to the next. */
  predicate Changes(init: Load, loads: seq<Load>, k: nat)
    requires k < |loads|
  {
    var before := LastSuccess(init, loads[..k]);
    loads[k].Some? && (before.None? || before.value.checksum != loads[k].value.checksum)
  }

  /** The loads at those places, in order. */
  function ChangePoints(init: Load, loads: seq<Load>): seq<ServerCerts> {
    if loads == [] then []
    else
      var n := |loads| - 1;
      ChangePoints(init, loads[..n]) + (if Changes(init, loads, n) then [loads[n].value] else [])
  }

  /** Comparing with what was sent is as good as comparing with what was loaded: exactly the loads
      that change the checksum are sent. */
  lemma {:induction false} FilterIsChangePoints(init: Load, loads: seq<Load>)
    ensures Filter(init, loads) == ChangePoints(init, loads)
  {
    if loads != [] {
      var n := |loads| - 1;
      FilterIsChangePoints(init, loads[..n]);
      assert loads == loads[..n] + [loads[n]];
      FilterNext(init, loads[..n], loads[n]);
      SentIsCurrent(init, loads[..n]);
    }
  }
}
