/** The few pieces of the Kotlin standard library both widgets lean on:
    nullable values and the Elvis operator, `Iterable.singleOrNull` and
    `CharSequence?.isNullOrBlank`. */
module KotlinStd {

  /** A Kotlin nullable value `T?`: `None` is `null`. */
  datatype Option<+T> = None | Some(value: T) {

    /** `this ?: default` for a non-null default. */
    function GetOr(default: T): T {
      match this
      case Some(v) => v
      case None => default
    }

    /** `this ?: other` where `other` may itself be null. */
    function OrElse(other: Option<T>): Option<T> {
      match this
      case Some(_) => this
      case None => other
    }
  }

  /** The elements of `xs` that satisfy `p`, in order (`xs.filter(p)`). */
  function Filter<T(!new)>(xs: seq<T>, p: T -> bool): (r: seq<T>)
    ensures |r| <= |xs|
    ensures forall x :: x in r <==> x in xs && p(x)
  {
    if xs == [] then []
    else (if p(xs[0]) then [xs[0]] else []) + Filter(xs[1..], p)
  }

  /** When no element satisfies `p`, filtering keeps nothing. */
  lemma {:induction false} FilterNoHit<T(!new)>(xs: seq<T>, p: T -> bool)
    requires forall j :: 0 <= j < |xs| ==> !p(xs[j])
    ensures Filter(xs, p) == []
  {
    if xs != [] {
      FilterNoHit(xs[1..], p);
    }
  }

  /** When exactly one position of `xs` satisfies `p`, filtering keeps that element alone. */
  lemma {:induction false} FilterSingleHit<T(!new)>(xs: seq<T>, p: T -> bool, i: nat)
    requires i < |xs| && p(xs[i])
    requires forall j :: 0 <= j < |xs| && j != i ==> !p(xs[j])
    ensures Filter(xs, p) == [xs[i]]
  {
    if i == 0 {
      FilterNoHit(xs[1..], p);
    } else {
      assert !p(xs[0]);
      FilterSingleHit(xs[1..], p, i - 1);
    }
  }

  /** When some position satisfies `p`, filtering keeps at least one element. */
  lemma {:induction false} FilterHasHit<T(!new)>(xs: seq<T>, p: T -> bool, i: nat)
    requires i < |xs| && p(xs[i])
    ensures |Filter(xs, p)| >= 1
  {
    if i > 0 {
      assert xs[1..][i - 1] == xs[i];
      FilterHasHit(xs[1..], p, i - 1);
    }
  }

  /** When two positions satisfy `p`, filtering keeps at least two elements,
      even if they hold equal values. */
  lemma {:induction false} FilterTwoHits<T(!new)>(xs: seq<T>, p: T -> bool, i: nat, j: nat)
    requires i < j < |xs| && p(xs[i]) && p(xs[j])
    ensures |Filter(xs, p)| >= 2
  {
    assert xs[1..][j - 1] == xs[j];
    if i == 0 {
      FilterHasHit(xs[1..], p, j - 1);
    } else {
      assert xs[1..][i - 1] == xs[i];
      FilterTwoHits(xs[1..], p, i - 1, j - 1);
    }
  }

  /** `xs.singleOrNull(p)`: the single element satisfying `p`, or null when
      none does or when more than one position does. */
  function SingleOrNull<T(!new)>(xs: seq<T>, p: T -> bool): Option<T> {
    var hits := Filter(xs, p);
    if |hits| == 1 then Some(hits[0]) else None
  }

  /** A non-null result is an element satisfying `p`, and the only one;
      an element at the one position satisfying `p` is always found. */
  lemma SingleOrNullSpec<T(!new)>(xs: seq<T>, p: T -> bool)
    ensures SingleOrNull(xs, p).Some? ==> SingleOrNull(xs, p).value in xs && p(SingleOrNull(xs, p).value)
    ensures SingleOrNull(xs, p).Some? ==> forall y :: y in xs && p(y) ==> y == SingleOrNull(xs, p).value
    ensures forall i :: 0 <= i < |xs| && p(xs[i]) && (forall j :: 0 <= j < |xs| && j != i ==> !p(xs[j]))
                        ==> SingleOrNull(xs, p) == Some(xs[i])
  {
    var hits := Filter(xs, p);
    if |hits| == 1 {
      assert hits == [hits[0]];
      assert hits[0] in hits;
    }
    forall i | 0 <= i < |xs| && p(xs[i]) && (forall j :: 0 <= j < |xs| && j != i ==> !p(xs[j]))
      ensures SingleOrNull(xs, p) == Some(xs[i])
    {
      FilterSingleHit(xs, p, i);
    }
  }

  /** Two positions satisfying `p` give null, even when they hold the same value. */
  lemma SingleOrNullManyHits<T(!new)>(xs: seq<T>, p: T -> bool, i: nat, j: nat)
    requires i < j < |xs| && p(xs[i]) && p(xs[j])
    ensures SingleOrNull(xs, p) == None
  {
    FilterTwoHits(xs, p, i, j);
  }

  /** Kotlin's `Char.isWhitespace()` on the JVM (`Character.isWhitespace`
      or `Character.isSpaceChar`), written out as the code points it accepts. */
  predicate IsWhitespace(c: char) {
    || ('\t' <= c <= '\r')
    || ('\U{1C}' <= c <= ' ')
    || c == '\U{A0}'
    || c == '\U{1680}'
    || ('\U{2000}' <= c <= '\U{200A}')
    || c == '\U{2028}'
    || c == '\U{2029}'
    || c == '\U{202F}'
    || c == '\U{205F}'
    || c == '\U{3000}'
  }

  /** `CharSequence.isBlank()`: empty, or whitespace only. */
  predicate IsBlank(s: string) {
    forall i :: 0 <= i < |s| ==> IsWhitespace(s[i])
  }

  /** `CharSequence?.isNullOrBlank()`. */
  predicate IsNullOrBlank(text: Option<string>) {
    match text
    case None => true
    case Some(s) => IsBlank(s)
  }
}
