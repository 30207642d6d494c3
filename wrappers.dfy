/** Outcomes of the importer's operations. The JavaScript code signals every
    failure by throwing an Error; the model returns the failure instead. */
module Wrappers {

  datatype Option<+T> = None | Some(value: T)

  /** One constructor per kind of Error the importer throws. */
  datatype Error =
    | UnknownContentType(contentType: string)
    | UnexpectedSequenceArity(arity: string, sequenceType: string)
    | ScopeComponentCountMismatch(scopeLabel: string)
    | UnknownEnumCategory(category: string)
    | UnknownEnumValue(category: string, value: string)
    | MissingBlockLabel
    | UnknownScopeType(scopeType: string)
    | UnhandledItemType(itemType: string)
    /** `forEach` of an undefined `newScopes` list (a TypeError). */
    | MissingNewScopes
    /** Reading a stream that the packed block does not have (a TypeError). */
    | MissingStream(key: string)
    /** Dereferencing an unregistered doc set id (a TypeError). */
    | UnknownDocSet(id: string)
    /** Reading the length of an enum table the doc set does not have (a TypeError). */
    | MissingEnumTable(category: string)
    /** `Array.from` of the tags of a document that was never initialised (a TypeError). */
    | MissingTags

  /** A value, or the error thrown instead of returning it. */
  datatype Result<+T> = Ok(value: T) | Err(error: Error)

  /** The outcome of an operation that returns nothing: it completed, or it threw. */
  datatype Outcome = Pass | Fail(error: Error)

  /** An operation that changes state reports what the function describing
      it computes: it completes exactly when the function has a value, and
      throws that function's error otherwise. */
  predicate Reports<T>(o: Outcome, r: Result<T>)
  {
    (o.Pass? <==> r.Ok?) && (o.Fail? ==> o.error == r.error)
  }

  /** Applies `f` to each element in turn: all the values, in order, or the
      error of the first element that fails (the first throw ends the loop). */
  function Collect<T, U>(f: T -> Result<U>, xs: seq<T>): (r: Result<seq<U>>)
    ensures r.Ok? <==> forall i :: 0 <= i < |xs| ==> f(xs[i]).Ok?
    ensures r.Ok? ==> |r.value| == |xs|
    ensures r.Ok? ==> forall i :: 0 <= i < |xs| ==> r.value[i] == f(xs[i]).value
  {
    if xs == [] then Ok([])
    else
      match Collect(f, xs[..|xs| - 1])
      case Err(e) => Err(e)
      case Ok(vs) =>
        match f(xs[|xs| - 1])
        case Err(e) => Err(e)
        case Ok(v) => Ok(vs + [v])
  }

  /** A failed collection reports the error of its first failing element. */
  lemma {:induction false} CollectErr<T, U>(f: T -> Result<U>, xs: seq<T>) returns (k: nat)
    requires Collect(f, xs).Err?
    ensures k < |xs| && f(xs[k]).Err? && Collect(f, xs).error == f(xs[k]).error
    ensures forall i :: 0 <= i < k ==> f(xs[i]).Ok?
  {
    var init := xs[..|xs| - 1];
    assert forall i :: 0 <= i < |init| ==> init[i] == xs[i];
    if Collect(f, init).Err? {
      k := CollectErr(f, init);
    } else {
      k := |xs| - 1;
    }
  }

  /** One more element that succeeds: its value follows the earlier ones. */
  lemma CollectSnoc<T, U>(f: T -> Result<U>, xs: seq<T>, k: nat)
    requires k < |xs| && Collect(f, xs[..k]).Ok? && f(xs[k]).Ok?
    ensures Collect(f, xs[..k + 1]) == Ok(Collect(f, xs[..k]).value + [f(xs[k]).value])
  {
    assert xs[..k + 1][..k] == xs[..k];
  }

  /** The first element that fails decides the result of the whole list. */
  lemma CollectFailAt<T, U>(f: T -> Result<U>, xs: seq<T>, k: nat)
    requires k < |xs| && Collect(f, xs[..k]).Ok? && f(xs[k]).Err?
    ensures Collect(f, xs) == Err(f(xs[k]).error)
  {
    var pre := xs[..k + 1];
    assert pre[..|pre| - 1] == xs[..k] && pre[|pre| - 1] == xs[k];
    assert Collect(f, pre) == Err(f(xs[k]).error);
    var rest := xs[k + 1..];
    assert pre + rest == xs;
    CollectPrefixErr(f, pre, rest);
  }

  /** Once an element has failed, later elements change nothing. */
  lemma {:induction false} CollectPrefixErr<T, U>(f: T -> Result<U>, xs: seq<T>, ys: seq<T>)
    requires Collect(f, xs).Err?
    ensures Collect(f, xs + ys) == Collect(f, xs)
    decreases |ys|
  {
    if ys == [] {
      assert xs + ys == xs;
    } else {
      var init := ys[..|ys| - 1];
      assert (xs + ys)[..|xs + ys| - 1] == xs + init;
      CollectPrefixErr(f, xs, init);
    }
  }

  /** Concatenation is associative (a helper for sequence proofs). */
  lemma SeqAssoc<T>(a: seq<T>, b: seq<T>, c: seq<T>)
    ensures (a + b) + c == a + (b + c)
  {
  }

  /** `for (const x of xs) step(x)` over a state that each step may update
      or throw from: the state after the last step, or the error of the
      first step that throws. */
  function Fold<S, T>(f: (S, T) -> Result<S>, s: S, xs: seq<T>): Result<S>
    decreases |xs|
  {
    if xs == [] then Ok(s)
    else
      match Fold(f, s, xs[..|xs| - 1])
      case Err(e) => Err(e)
      case Ok(p) => f(p, xs[|xs| - 1])
  }

  /** One more step of a fold that has not thrown. */
  lemma FoldStep<S, T>(f: (S, T) -> Result<S>, s: S, xs: seq<T>, i: nat, p: S)
    requires i < |xs| && Fold(f, s, xs[..i]) == Ok(p)
    ensures Fold(f, s, xs[..i + 1]) == f(p, xs[i])
  {
    assert xs[..i + 1][..i] == xs[..i];
  }

  /** Once a step throws, the later steps never run: the whole fold throws
      the same error. */
  lemma {:induction false} FoldPrefixErr<S, T>(f: (S, T) -> Result<S>, s: S, xs: seq<T>, k: nat)
    requires k <= |xs| && Fold(f, s, xs[..k]).Err?
    ensures Fold(f, s, xs) == Fold(f, s, xs[..k])
    decreases |xs| - k
  {
    if k < |xs| {
      assert xs[..k + 1][..k] == xs[..k];
      FoldPrefixErr(f, s, xs, k + 1);
    } else {
      assert xs[..k] == xs;
    }
  }

  /** Folding two lists is folding the first, then the second from where
      the first left off. */
  lemma {:induction false} FoldConcat<S, T>(f: (S, T) -> Result<S>, s: S, xs: seq<T>, ys: seq<T>)
    requires Fold(f, s, xs).Ok?
    ensures Fold(f, s, xs + ys) == Fold(f, Fold(f, s, xs).value, ys)
    decreases |ys|
  {
    if ys == [] {
      assert xs + ys == xs;
    } else {
      var init := ys[..|ys| - 1];
      assert (xs + ys)[..|xs + ys| - 1] == xs + init;
      FoldConcat(f, s, xs, init);
    }
  }
}
