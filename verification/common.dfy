/** Values shared by every module of the model: optional values, the reasons a
    run stops, and results that carry either a value or such a reason. */
module Common {

  datatype Option<+T> = None | Some(value: T)

  /** Why a run stops. Each case names the Python exception (or the call to
      `exit()`) that the scraper reaches on that path. */
  datatype Failure =
    | ConnectionError(status: int)  // a non-200 response: connection_error() prints and exits
    | ValueError(text: string)      // int() applied to text that is not an integer
    | IndexError                    // a table cell index past the end of the cells
    | KeyError(key: string)         // a category name missing from the books map
    | NameError                     // a local variable read before it was ever assigned
    | InvalidCategories             // the category filter kept nothing: message, then exit()

  datatype Result<+T> = Ok(value: T) | Err(failure: Failure)

  /** The result of an operation that only changes state. */
  datatype Outcome = Pass | Fail(failure: Failure)

  /** Forgets the value of a result, keeping whether and why it failed. */
  function OutcomeOf<T>(r: Result<T>): Outcome {
    if r.Ok? then Pass else Fail(r.failure)
  }

  /** Applies `f` to every element in order, stopping at the first failure;
      this is the shape of every per-book loop of the scraper. */
  function MapAll<A, B>(f: A -> Result<B>, xs: seq<A>): Result<seq<B>>
    decreases |xs|
  {
    if xs == [] then Ok([])
    else
      match MapAll(f, xs[..|xs| - 1])
      case Err(e) => Err(e)
      case Ok(ys) =>
        match f(xs[|xs| - 1])
        case Err(e) => Err(e)
        case Ok(y) => Ok(ys + [y])
  }

  /** A run that succeeds holds exactly one result per element, in order. */
  lemma {:induction false} MapAllOk<A, B>(f: A -> Result<B>, xs: seq<A>)
    requires MapAll(f, xs).Ok?
    ensures |MapAll(f, xs).value| == |xs|
    ensures forall k :: 0 <= k < |xs| ==> f(xs[k]) == Ok(MapAll(f, xs).value[k])
    decreases |xs|
  {
    if xs != [] {
      var init := xs[..|xs| - 1];
      MapAllOk(f, init);
      forall k | 0 <= k < |init| ensures xs[k] == init[k] { }
    }
  }

  /** A run fails exactly when some element fails, and then with the failure
      of the first element that does. */
  lemma {:induction false} MapAllFails<A, B>(f: A -> Result<B>, xs: seq<A>)
    ensures MapAll(f, xs).Err? <==> exists k :: 0 <= k < |xs| && f(xs[k]).Err?
    ensures MapAll(f, xs).Err? ==>
      exists k :: 0 <= k < |xs| && f(xs[k]) == Err(MapAll(f, xs).failure) && (forall j :: 0 <= j < k ==> f(xs[j]).Ok?)
    decreases |xs|
  {
    if xs != [] {
      var init := xs[..|xs| - 1];
      MapAllFails(f, init);
      assert forall k :: 0 <= k < |init| ==> init[k] == xs[k];
      if MapAll(f, init).Err? {
        var k :| 0 <= k < |init| && f(init[k]) == Err(MapAll(f, init).failure) && (forall j :: 0 <= j < k ==> f(init[j]).Ok?);
        assert f(xs[k]) == Err(MapAll(f, xs).failure);
      } else {
        assert forall k :: 0 <= k < |init| ==> f(xs[k]).Ok?;
      }
    }
  }

  /** Writing a key twice leaves the second value. */
  lemma UpdateTwice<K, V>(m: map<K, V>, k: K, a: V, b: V)
    ensures m[k := a][k := b] == m[k := b]
  {
  }

  /** A run over one more element extends the run over the prefix. */
  lemma MapAllSnoc<A, B>(f: A -> Result<B>, xs: seq<A>, m: nat)
    requires m < |xs| && MapAll(f, xs[..m]).Ok?
    ensures f(xs[m]).Err? ==> MapAll(f, xs[..m + 1]) == Err(f(xs[m]).failure)
    ensures f(xs[m]).Ok? ==> MapAll(f, xs[..m + 1]) == Ok(MapAll(f, xs[..m]).value + [f(xs[m]).value])
  {
    assert xs[..m + 1][..m] == xs[..m];
  }

  /** Once a prefix fails, the whole run fails the same way. */
  lemma {:induction false} MapAllFailPrefix<A, B>(f: A -> Result<B>, xs: seq<A>, j: nat)
    requires j <= |xs| && MapAll(f, xs[..j]).Err?
    ensures MapAll(f, xs) == MapAll(f, xs[..j])
    decreases |xs| - j
  {
    if j == |xs| {
      assert xs[..j] == xs;
    } else {
      var init := xs[..|xs| - 1];
      assert init[..j] == xs[..j];
      MapAllFailPrefix(f, init, j);
    }
  }
}
