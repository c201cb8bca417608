/** Shared vocabulary of the enrollment-finance model: identifiers, money,
    the outcome types that replace the source's exceptions, and a fold used
    to describe the "setattr for every supplied field" update loops. */
module Common {

  /** Opaque document identifier (a MongoDB ObjectId in the source). */
  type Id = nat

  /** Opaque point in time; only compared, never computed with. */
  type Timestamp = int

  /** Money is exact here; the source compares balances with a one-cent tolerance. */
  const Tolerance: real := 0.01

  datatype Option<+T> = None | Some(value: T) {
    function GetOr(default: T): T {
      match this
      case Some(v) => v
      case None => default
    }
  }

  /** The kinds of failure the core raises (HTTP status in the comment). */
  datatype Error =
    | NotFound(what: string)        // 404
    | Unauthorized(detail: string)  // 401
    | Forbidden(detail: string)     // 403
    | Invalid(detail: string)       // a Pydantic ValueError
    | ZeroDivision                  // a Python ZeroDivisionError
    | NoneOperand                   // a Python TypeError: arithmetic on None

  datatype Result<+T> = Success(value: T) | Failure(error: Error)

  /** An empty outcome: the validation passed, or failed with an error. */
  datatype Outcome = Pass | Fail(error: Error)

  function Abs(x: real): real {
    if x < 0.0 then -x else x
  }

  /** Python's max(0, x). */
  function Max0(x: real): (r: real)
    ensures r >= 0.0 && r >= x
    ensures r == x || r == 0.0
  {
    if x < 0.0 then 0.0 else x
  }

  /** Python's int(x) on a float: truncation toward zero. */
  function TruncToInt(x: real): (r: int)
    ensures x >= 0.0 ==> r as real <= x < r as real + 1.0
    ensures x <= 0.0 ==> r as real - 1.0 < x <= r as real
  {
    if x >= 0.0 then x.Floor else -((-x).Floor)
  }

  /** Applies `step` to `start` for every element of `ps`, left to right. */
  function Fold<P, U>(ps: seq<P>, start: U, step: (U, P) -> U): U
    decreases |ps|
  {
    if ps == [] then start else step(Fold(ps[..|ps| - 1], start, step), ps[|ps| - 1])
  }

  lemma FoldSnoc<P, U>(ps: seq<P>, p: P, start: U, step: (U, P) -> U)
    ensures Fold(ps + [p], start, step) == step(Fold(ps, start, step), p)
  {
    assert (ps + [p])[..|ps + [p]| - 1] == ps;
  }

  /** Folding a concatenation folds the second part from where the first left off. */
  lemma {:induction false} FoldAppend<P, U>(a: seq<P>, b: seq<P>, start: U, step: (U, P) -> U)
    ensures Fold(a + b, start, step) == Fold(b, Fold(a, start, step), step)
    decreases |b|
  {
    if b == [] {
      assert a + b == a;
    } else {
      var init, last := b[..|b| - 1], b[|b| - 1];
      assert b == init + [last];
      assert a + b == (a + init) + [last];
      FoldSnoc(a + init, last, start, step);
      FoldAppend(a, init, start, step);
      FoldSnoc(init, last, Fold(a, start, step), step);
    }
  }

  /** Folding at most one element is applying it, if there is one. */
  lemma FoldUno<P, U>(c: seq<P>, start: U, step: (U, P) -> U)
    requires |c| <= 1
    ensures Fold(c, start, step) == if c == [] then start else step(start, c[0])
  {
    if c != [] {
      assert c[..0] == [];
    }
  }

  /** `step` applied to the element of a sequence of at most one element. */
  function Paso<P, U>(x: seq<P>, s: U, step: (U, P) -> U): U {
    if x == [] then s else step(s, x[0])
  }

  /** Folding six runs of at most one element each applies them in turn. */
  lemma {:induction false} FoldTramos<P, U>(a: seq<P>, b: seq<P>, c: seq<P>, d: seq<P>, e: seq<P>, f: seq<P>,
                                            start: U, step: (U, P) -> U)
    requires |a| <= 1 && |b| <= 1 && |c| <= 1 && |d| <= 1 && |e| <= 1 && |f| <= 1
    ensures Fold(a + b + c + d + e + f, start, step)
              == Paso(f, Paso(e, Paso(d, Paso(c, Paso(b, Paso(a, start, step), step), step), step), step), step)
  {
    FoldUno(a, start, step);
    FoldAppend(a, b, start, step);
    FoldUno(b, Fold(a, start, step), step);
    FoldAppend(a + b, c, start, step);
    FoldUno(c, Fold(a + b, start, step), step);
    FoldAppend(a + b + c, d, start, step);
    FoldUno(d, Fold(a + b + c, start, step), step);
    FoldAppend(a + b + c + d, e, start, step);
    FoldUno(e, Fold(a + b + c + d, start, step), step);
    FoldAppend(a + b + c + d + e, f, start, step);
    FoldUno(f, Fold(a + b + c + d + e, start, step), step);
  }

  /** True when no element occurs twice. */
  predicate NoDuplicates<T(==)>(s: seq<T>) {
    forall i, j :: 0 <= i < j < |s| ==> s[i] != s[j]
  }
}
