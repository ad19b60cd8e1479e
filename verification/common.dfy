/** Small value types shared by every module of the model. */
module Common {

  datatype Option<+T> = None | Some(value: T)

  function Min(a: int, b: int): int { if a <= b then a else b }

  function Max(a: int, b: int): int { if a <= b then b else a }

  /**
   * `s.slice(-k)` for k > 0: the last `k` elements, or all of `s` when it is
   * shorter, in their original order.
   */
  function Tail<T>(s: seq<T>, k: nat): (r: seq<T>)
    requires k > 0
    ensures |r| == Min(k, |s|)
    ensures forall i :: 0 <= i < |r| ==> r[i] == s[|s| - |r| + i]
    ensures |s| <= k ==> r == s
  {
    if |s| <= k then s else s[|s| - k..]
  }

  /** `xs.map(f)` for a partial `f`: every element mapped, in order, or `None` at the first failure. */
  function MapAll<A, B>(f: A -> Option<B>, xs: seq<A>): (r: Option<seq<B>>)
    ensures r.Some? <==> forall i :: 0 <= i < |xs| ==> f(xs[i]).Some?
    ensures r.Some? ==> |r.value| == |xs|
    ensures r.Some? ==> forall i :: 0 <= i < |xs| ==> Some(r.value[i]) == f(xs[i])
  {
    if |xs| == 0 then Some([])
    else
      match f(xs[0])
      case None => None
      case Some(y) =>
        var rest := MapAll(f, xs[1..]);
        assert forall i :: 1 <= i < |xs| ==> xs[1..][i - 1] == xs[i];
        if rest.None? then None else Some([y] + rest.value)
  }
}
