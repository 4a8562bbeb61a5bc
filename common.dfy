/** Result values for the places where the application raises an exception. */
module Common {

  /** The exceptions the core can raise, one constructor per cause. */
  datatype Error =
    | NotAnInteger          // `int(...)` rejects a comma-separated piece
    | WrongCount            // a manual entry without exactly 5 numbers and 2 stars
    | NoDraws               // the spreadsheet holds no draw, so there is no latest date
    | NotLoaded             // the weight tables were never built
    | SampleTooLarge        // numpy: a larger sample than the population without replacement
    | FewerNonZeroEntries   // numpy: fewer positive probabilities than the sample size

  datatype Result<+T> = Ok(value: T) | Err(error: Error)

  /** `[f(x) for x in xs]` where `f` may raise: the first failure ends the whole list. */
  function MapResult<T, U>(xs: seq<T>, f: T -> Result<U>): (r: Result<seq<U>>)
    ensures r.Ok? <==> forall i :: 0 <= i < |xs| ==> f(xs[i]).Ok?
    ensures r.Ok? ==> |r.value| == |xs| && forall i :: 0 <= i < |xs| ==> f(xs[i]) == Ok(r.value[i])
    ensures r.Err? ==> exists i :: 0 <= i < |xs| && f(xs[i]) == Err(r.error) && forall j :: 0 <= j < i ==> f(xs[j]).Ok?
  {
    if xs == [] then Ok([])
    else
      match f(xs[0])
      case Err(e) => Err(e)
      case Ok(y) =>
        match MapResult(xs[1..], f)
        case Err(e) =>
          assert exists i :: 0 <= i < |xs| && f(xs[i]) == Err(e) && forall j :: 0 <= j < i ==> f(xs[j]).Ok? by {
            var k :| 0 <= k < |xs[1..]| && f(xs[1..][k]) == Err(e) && forall j :: 0 <= j < k ==> f(xs[1..][j]).Ok?;
            assert xs[k + 1] == xs[1..][k];
            forall j | 0 <= j < k + 1 ensures f(xs[j]).Ok? {
              if j > 0 {
                assert xs[j] == xs[1..][j - 1];
              }
            }
          }
          Err(e)
        case Ok(ys) =>
          assert forall i :: 1 <= i < |xs| ==> xs[i] == xs[1..][i - 1];
          Ok([y] + ys)
  }

  /** Every element differs from every other one. */
  predicate Distinct<T(==)>(s: seq<T>)
  {
    forall i, j :: 0 <= i < j < |s| ==> s[i] != s[j]
  }

  /** Every element is smaller than every later one. */
  predicate StrictlyAscending(s: seq<int>)
  {
    forall i, j :: 0 <= i < j < |s| ==> s[i] < s[j]
  }
}
