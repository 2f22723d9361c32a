/** The accumulation pattern both the parameter conversion and the rule
    generation follow: visit a sequence in order, put each new image in front
    of the images collected so far, and abort on the first failure. */
module Folds {
  import opened Wrappers

  function PrependEach<T, U, E>(s: seq<T>, f: T -> Result<U, E>): (r: Result<seq<U>, E>)
    ensures r.Success? <==> forall i :: 0 <= i < |s| ==> f(s[i]).Success?
    ensures r.Success? ==> |r.value| == |s|
  {
    if s == [] then Success([])
    else
      var acc :- PrependEach(s[..|s| - 1], f);
      var image :- f(s[|s| - 1]);
      Success([image] + acc)
  }

  /** Extending the visited prefix by one element: the step a loop over the sequence takes. */
  lemma PrependEachStep<T, U, E>(s: seq<T>, f: T -> Result<U, E>, i: int)
    requires 0 <= i < |s|
    ensures PrependEach(s[..i + 1], f) ==
      if PrependEach(s[..i], f).Failure? then Failure(PrependEach(s[..i], f).error)
      else if f(s[i]).Failure? then Failure(f(s[i]).error)
      else Success([f(s[i]).value] + PrependEach(s[..i], f).value)
  {
    assert s[..i + 1][..i] == s[..i];
    assert s[..i + 1][i] == s[i];
  }

  /** Image i of the result is the image of element n-1-i: the order is reversed. */
  lemma {:induction false} PrependEachReversed<T, U, E>(s: seq<T>, f: T -> Result<U, E>)
    requires PrependEach(s, f).Success?
    ensures var images := PrependEach(s, f).value;
      forall i :: 0 <= i < |images| ==> f(s[|s| - 1 - i]) == Success(images[i])
  {
    var n := |s|;
    var images := PrependEach(s, f).value;
    if n > 0 {
      var init := s[..n - 1];
      var acc := PrependEach(init, f).value;
      var image := f(s[n - 1]).value;
      assert images == [image] + acc;
      PrependEachReversed(init, f);
      forall i | 0 <= i < n ensures f(s[n - 1 - i]) == Success(images[i]) {
        if i > 0 {
          assert images[i] == acc[i - 1];
          assert s[n - 1 - i] == init[|init| - 1 - (i - 1)];
        }
      }
    }
  }

  /** A failure is the failure of the first element, in order, that fails. */
  lemma {:induction false} PrependEachFirstError<T, U, E>(s: seq<T>, f: T -> Result<U, E>)
    ensures PrependEach(s, f).Failure? ==> exists i ::
      && 0 <= i < |s|
      && f(s[i]) == Failure(PrependEach(s, f).error)
      && forall j :: 0 <= j < i ==> f(s[j]).Success?
  {
    if PrependEach(s, f).Failure? {
      var n := |s|;
      var e := PrependEach(s, f).error;
      var init := s[..n - 1];
      PrependEachFirstError(init, f);
      if PrependEach(init, f).Failure? {
        assert PrependEach(init, f).error == e;
        var i :|
          && 0 <= i < |init|
          && f(init[i]) == Failure(e)
          && forall j :: 0 <= j < i ==> f(init[j]).Success?;
        assert init[i] == s[i];
        forall j | 0 <= j < i ensures f(s[j]).Success? {
          assert init[j] == s[j];
        }
        assert f(s[i]) == Failure(e);
      } else {
        assert f(s[n - 1]) == Failure(e);
        forall j | 0 <= j < n - 1 ensures f(s[j]).Success? {
          assert init[j] == s[j];
        }
      }
    }
  }

  /** Once the first k elements have failed, the whole sequence fails with the same error. */
  lemma {:induction false} PrependEachFailureExtends<T, U, E>(s: seq<T>, f: T -> Result<U, E>, k: nat, e: E)
    requires k <= |s|
    requires PrependEach(s[..k], f) == Failure(e)
    ensures PrependEach(s, f) == Failure(e)
    decreases |s| - k
  {
    if k < |s| {
      assert s[..k + 1][..k] == s[..k];
      PrependEachFailureExtends(s, f, k + 1, e);
    } else {
      assert s[..k] == s;
    }
  }
}
