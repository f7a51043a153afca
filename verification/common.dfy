/** Optional values and validation outcomes shared by every module. */
module Common {

  datatype Option<+T> = None | Some(value: T) {
    function GetOr(default: T): T {
      match this
      case Some(v) => v
      case None => default
    }
  }

  /** The outcome of a schema validation: a record, or the set of paths that failed. */
  datatype Validated<+T> = Valid(value: T) | Invalid(paths: set<string>)

  /** JavaScript truthiness of an optional string: absent and "" are falsy. */
  predicate TruthyStr(s: Option<string>) {
    s.Some? && s.value != ""
  }

  /** The values of the present options, in their order. */
  function Present<T>(os: seq<Option<T>>): (r: seq<T>)
    ensures |r| <= |os|
    decreases |os|
  {
    if |os| == 0 then []
    else
      var last := os[|os| - 1];
      Present(os[..|os| - 1]) + (if last.Some? then [last.value] else [])
  }

  /** The present values of two lists one after the other are those of each, joined. */
  lemma {:induction false} PresentConcat<T>(a: seq<Option<T>>, b: seq<Option<T>>)
    ensures Present(a + b) == Present(a) + Present(b)
    decreases |b|
  {
    if |b| == 0 {
      assert a + b == a;
    } else {
      var ab := a + b;
      assert ab[..|ab| - 1] == a + b[..|b| - 1];
      PresentConcat(a, b[..|b| - 1]);
    }
  }

  /** Every value listed is present at some position, and every present value is listed. */
  lemma {:induction false} PresentExactly<T>(os: seq<Option<T>>)
    ensures forall x :: x in Present(os) ==> exists i :: 0 <= i < |os| && os[i] == Some(x)
    ensures forall i :: 0 <= i < |os| && os[i].Some? ==> os[i].value in Present(os)
    decreases |os|
  {
    if |os| > 0 {
      var n := |os| - 1;
      var init := os[..n];
      PresentExactly(init);
      forall x | x in Present(os) ensures exists i :: 0 <= i < |os| && os[i] == Some(x) {
        if x in Present(init) {
          var i :| 0 <= i < |init| && init[i] == Some(x);
          assert os[i] == init[i];
        } else {
          assert os[n] == Some(x);
        }
      }
      forall i | 0 <= i < |os| && os[i].Some? ensures os[i].value in Present(os) {
        if i < n {
          assert init[i] == os[i];
        }
      }
    }
  }

  /** `a || b` for an optional string. */
  function OrStr(a: Option<string>, b: string): (r: string)
    ensures TruthyStr(a) ==> r == a.value
    ensures !TruthyStr(a) ==> r == b
  {
    if TruthyStr(a) then a.value else b
  }
}
