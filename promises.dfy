/**
 * `Promise.all` over the values the `map` callback of `applyPolyfills`
 * produces (dist/app.js:78-84). A value that is not a promise, such as
 * `undefined`, counts as already fulfilled.
 */
module Promises {

  type Reason = string

  /** How the host settles one injected script: `onload` or `onerror`. */
  datatype Outcome = Loaded | Failed(reason: Reason)

  /** What a `map` callback hands to `Promise.all`. */
  datatype Value = Undefined | Promise(outcome: Outcome)

  /** How the aggregate promise settles. */
  datatype Settlement = Resolved | Rejected(reason: Reason)

  predicate Rejects(v: Value)
  {
    v.Promise? && v.outcome.Failed?
  }

  /** `Promise.all`: fulfilled when nothing rejects, else rejected with the reason of the first rejection in list order. */
  function All(vs: seq<Value>): (r: Settlement)
    ensures r.Resolved? <==> forall k :: 0 <= k < |vs| ==> !Rejects(vs[k])
    decreases |vs|
  {
    if |vs| == 0 then Resolved
    else if Rejects(vs[0]) then Rejected(vs[0].outcome.reason)
    else All(vs[1..])
  }

  /** Both directions: the aggregate rejects with `x` exactly when the first rejecting value, in list order, carries `x`. */
  lemma {:induction false} AllRejectsWithFirst(vs: seq<Value>, x: Reason)
    ensures All(vs) == Rejected(x) <==>
      exists k :: 0 <= k < |vs| && vs[k] == Promise(Failed(x)) && forall j :: 0 <= j < k ==> !Rejects(vs[j])
    decreases |vs|
  {
    if |vs| > 0 {
      AllRejectsWithFirst(vs[1..], x);
      if All(vs) == Rejected(x) && !Rejects(vs[0]) {
        var k :| 0 <= k < |vs[1..]| && vs[1..][k] == Promise(Failed(x)) && forall j :: 0 <= j < k ==> !Rejects(vs[1..][j]);
        assert vs[k + 1] == Promise(Failed(x));
        assert forall j :: 0 <= j < k + 1 ==> !Rejects(vs[j]) by {
          forall j | 0 <= j < k + 1 ensures !Rejects(vs[j]) {
            if j > 0 { assert vs[j] == vs[1..][j - 1]; }
          }
        }
      }
      if exists k :: 0 <= k < |vs| && vs[k] == Promise(Failed(x)) && forall j :: 0 <= j < k ==> !Rejects(vs[j]) {
        var k :| 0 <= k < |vs| && vs[k] == Promise(Failed(x)) && forall j :: 0 <= j < k ==> !Rejects(vs[j]);
        if k > 0 {
          assert vs[1..][k - 1] == Promise(Failed(x));
          assert forall j :: 0 <= j < k - 1 ==> !Rejects(vs[1..][j]) by {
            forall j | 0 <= j < k - 1 ensures !Rejects(vs[1..][j]) {
              assert vs[1..][j] == vs[j + 1];
            }
          }
        }
      }
    }
  }

  /**
   * Whether the aggregate is fulfilled does not depend on the order the
   * values are listed in; only which rejection is reported can.
   */
  lemma AllStatusOrderIndependent(vs: seq<Value>, ws: seq<Value>)
    requires multiset(vs) == multiset(ws)
    ensures All(vs).Resolved? <==> All(ws).Resolved?
  {
    if !All(vs).Resolved? {
      var k :| 0 <= k < |vs| && Rejects(vs[k]);
      assert vs[k] in multiset(ws);
    }
    if !All(ws).Resolved? {
      var k :| 0 <= k < |ws| && Rejects(ws[k]);
      assert ws[k] in multiset(vs);
    }
  }

  /** A list holding no promise at all is fulfilled at once. */
  lemma AllOfNonPromises(vs: seq<Value>)
    requires forall k :: 0 <= k < |vs| ==> vs[k] == Undefined
    ensures All(vs) == Resolved
  {
  }
}
