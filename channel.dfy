/**
 * The response channel of one dialog: the `response` object, the promise
 * whose resolver is stored on it, and the coroutine `G` (driven by `co`)
 * behind the `send` function that feeds it updates.
 */
module ResponseChannel {
  import opened Wrappers
  import opened Resolver

  /** The fields one `send(data)` carries; absent fields are left alone by `Object.assign`. */
  datatype Update = Update(done: Option<bool>, value: Option<Value>)

  class Channel {
    /** `response.done` and `response.value` */
    var done: bool
    var value: Value
    /** whether `response.resolve` has been called, i.e. the awaited promise resolved */
    var resolved: bool
    /** whether the generator `G` has returned, after which `send` does nothing */
    var finished: bool
    /** how many times the promise's resolver has been called */
    ghost var resolveCalls: nat

    /** The cell is resolved, once, exactly when it is done, and the generator ends with it. */
    ghost predicate Valid()
      reads this
    {
      finished == done && resolved == done && resolveCalls == (if resolved then 1 else 0)
    }

    /** `{ done: false }`, with the generator started and waiting at its first `yield`. */
    constructor ()
      ensures Valid()
      ensures !done && value == Undefined
    {
      done, value := false, Undefined;
      resolved, finished := false, false;
      resolveCalls := 0;
    }

    /**
     * `send(data)`: while the generator runs, merge the update into the
     * response; the first update that leaves it done resolves the promise
     * and ends the generator. Once the generator has ended, nothing changes.
     */
    method Send(u: Update)
      requires Valid()
      modifies this
      ensures Valid()
      ensures old(finished) ==> unchanged(this)
      ensures !old(finished) ==> done == (u.done == Some(true)) && value == u.value.GetOr(old(value))
    {
      if finished {
        return;
      }
      // Object.assign(response, data)
      if u.done.Some? {
        done := u.done.value;
      }
      if u.value.Some? {
        value := u.value.value;
      }
      if done {
        resolved := true;
        resolveCalls := resolveCalls + 1;
        finished := true;
      }
    }

    /** `await wait; return response.value`: the value once the promise resolved, None while it is pending. */
    method Await() returns (r: Option<Value>)
      requires Valid()
      ensures r.Some? <==> done
      ensures r.Some? ==> r.value == value
    {
      r := if resolved then Some(value) else None;
    }
  }
}
