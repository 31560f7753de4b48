/** Optional values and error-carrying results, standing for Go's `(T, error)` pairs. */
module Wrappers {

  datatype Option<+T> = None | Some(value: T)

  /** `Err` carries the text of the Go error value. */
  datatype Result<+T> = Ok(value: T) | Err(msg: string) {
    predicate IsFailure() { Err? }
    function PropagateFailure<U>(): Result<U>
      requires Err?
    {
      Err(msg)
    }
    function Extract(): T
      requires Ok?
    {
      value
    }
  }

  /** The values of a list of results, or the error of the first failing
      one: the shape of a Go loop that returns on the first error. */
  function Collect<T>(rs: seq<Result<T>>): Result<seq<T>>
  {
    if rs == [] then Ok([])
    else
      var pre := Collect(rs[..|rs| - 1]);
      if pre.Err? then pre
      else
        var last := rs[|rs| - 1];
        if last.Err? then Err(last.msg) else Ok(pre.value + [last.value])
  }

  /** Result `k` is the first error of the list. */
  predicate FirstErr<T>(rs: seq<Result<T>>, k: int)
  {
    0 <= k < |rs| && rs[k].Err? && forall j :: 0 <= j < k ==> rs[j].Ok?
  }

  lemma CollectStep<T>(rs: seq<Result<T>>, i: nat)
    requires i < |rs| && Collect(rs[..i]).Ok?
    ensures Collect(rs[..i + 1]) == if rs[i].Err? then Err(rs[i].msg) else Ok(Collect(rs[..i]).value + [rs[i].value])
  {
    assert rs[..i + 1][..i] == rs[..i];
  }

  lemma {:induction false} CollectPrefixErr<T>(rs: seq<Result<T>>, n: nat)
    requires n <= |rs| && Collect(rs[..n]).Err?
    ensures Collect(rs) == Collect(rs[..n])
    decreases |rs| - n
  {
    if n < |rs| {
      assert rs[..n + 1][..n] == rs[..n];
      CollectPrefixErr(rs, n + 1);
    } else {
      assert rs[..n] == rs;
    }
  }

  /** The list collects exactly when every result is a value; then the
      values are kept one for one, in order. */
  lemma {:induction false} CollectOk<T>(rs: seq<Result<T>>)
    ensures Collect(rs).Ok? <==> forall k :: 0 <= k < |rs| ==> rs[k].Ok?
    ensures Collect(rs).Ok? ==> (|Collect(rs).value| == |rs| &&
      forall k :: 0 <= k < |rs| ==> Collect(rs).value[k] == rs[k].value)
  {
    if rs != [] {
      var n := |rs| - 1;
      var init := rs[..n];
      CollectOk(init);
      var pre := Collect(init);
      if pre.Err? {
        var k :| 0 <= k < n && !init[k].Ok?;
        assert init[k] == rs[k];
      } else if rs[n].Ok? {
        var v := pre.value + [rs[n].value];
        forall k | 0 <= k < |rs|
          ensures rs[k].Ok? && v[k] == rs[k].value
        {
          if k < n {
            assert init[k] == rs[k];
          }
        }
      }
    }
  }

  /** Otherwise the error is that of the first failing result. */
  lemma {:induction false} CollectErr<T>(rs: seq<Result<T>>)
    requires Collect(rs).Err?
    ensures exists k :: FirstErr(rs, k) && Collect(rs).msg == rs[k].msg
  {
    var n := |rs| - 1;
    var init := rs[..n];
    if Collect(init).Err? {
      CollectErr(init);
      var k :| FirstErr(init, k) && Collect(init).msg == init[k].msg;
      assert forall j :: 0 <= j <= k ==> init[j] == rs[j];
      assert FirstErr(rs, k);
    } else {
      CollectOk(init);
      assert forall j :: 0 <= j < n ==> init[j] == rs[j];
      assert FirstErr(rs, n);
    }
  }
}
