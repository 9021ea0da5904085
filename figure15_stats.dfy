/**
 * avg() and stddev() of the figure helpers: both accept a comma-separated
 * string, a single-value string or a list of numbers, normalise it to a
 * list, and reduce it to the mean or the population deviation.
 * Numbers are modelled as reals; float() is the parameter `parse`
 * (None where float() raises ValueError).
 */
module Figure15Stats {
  import opened Wrappers

  /** What the caller passes as `s`. */
  datatype Samples = Text(text: string) | Values(values: seq<real>)

  /** The exceptions the helpers end in (np.std of an empty list yields nan
      rather than raising; it is reported here as NotANumber). */
  datatype StatError = BadNumber(field: string) | DivisionByZero | NotANumber

  // ---------------------------------------------------------------------
  // str.split(',') and its inverse

  /** s.split(','): the maximal comma-free pieces, empty ones included. */
  function Split(s: string): (fields: seq<string>)
    ensures |fields| >= 1
    decreases |s|
  {
    if s == [] then [""]
    else
      var rest := Split(s[1..]);
      if s[0] == ',' then [""] + rest
      else [[s[0]] + rest[0]] + rest[1..]
  }

  /** ','.join(fields). */
  function Join(fields: seq<string>): string
    requires |fields| >= 1
    decreases |fields|
  {
    if |fields| == 1 then fields[0] else fields[0] + "," + Join(fields[1..])
  }

  /** No field contains a comma. */
  predicate CommaFree(fields: seq<string>)
  {
    forall i :: 0 <= i < |fields| ==> ',' !in fields[i]
  }

  /** Splitting yields comma-free fields that join back to the string. */
  lemma {:induction false} SplitJoin(s: string)
    ensures CommaFree(Split(s))
    ensures Join(Split(s)) == s
    decreases |s|
  {
    if s != [] {
      SplitJoin(s[1..]);
      var rest := Split(s[1..]);
      if s[0] == ',' {
        assert [""] + rest == [""] + rest;
        assert ([""] + rest)[1..] == rest;
        assert s == [','] + s[1..];
      } else {
        var f := [[s[0]] + rest[0]] + rest[1..];
        assert f[1..] == rest[1..];
        assert ',' !in [s[0]] + rest[0];
        if |rest| == 1 {
          assert s == [s[0]] + s[1..];
        } else {
          assert Join(rest) == rest[0] + "," + Join(rest[1..]);
          assert s == [s[0]] + s[1..];
        }
      }
    }
  }

  /** Joining comma-free fields and splitting again gives the fields back. */
  lemma {:induction false} JoinSplit(fields: seq<string>)
    requires |fields| >= 1 && CommaFree(fields)
    ensures Split(Join(fields)) == fields
    decreases |fields|, |fields[0]|
  {
    if |fields| == 1 {
      NoCommaSplit(fields[0]);
    } else {
      var tail := fields[1..];
      assert CommaFree(tail);
      JoinSplit(tail);
      var f := fields[0];
      if f == [] {
        assert Join(fields) == [','] + Join(tail);
        assert Join(fields)[1..] == Join(tail);
      } else {
        var shorter := [f[1..]] + tail;
        assert shorter[1..] == tail;
        assert CommaFree(shorter) by {
          assert forall c :: c in f[1..] ==> c in f;
        }
        JoinSplit(shorter);
        assert Join(fields) == [f[0]] + Join(shorter);
        assert Join(fields)[1..] == Join(shorter);
        assert [f[0]] + f[1..] == f;
      }
    }
  }

  /** A string without a comma splits into itself alone. */
  lemma {:induction false} NoCommaSplit(s: string)
    requires ',' !in s
    ensures Split(s) == [s]
    decreases |s|
  {
    if s != [] {
      assert forall c :: c in s[1..] ==> c in s;
      NoCommaSplit(s[1..]);
      assert [s[0]] + s[1..] == s;
    }
  }

  /** A string containing a comma splits into at least two fields. */
  lemma {:induction false} CommaSplitsInTwo(s: string)
    requires ',' in s
    ensures |Split(s)| >= 2
    decreases |s|
  {
    if s[0] != ',' {
      CommaSplitsInTwo(s[1..]);
    }
  }

  // ---------------------------------------------------------------------
  // Normalisation

  /** Field i is the first one float() rejects. */
  predicate FirstRejected(fields: seq<string>, parse: string -> Option<real>, i: int)
  {
    0 <= i < |fields| && parse(fields[i]) == None
    && forall k :: 0 <= k < i ==> parse(fields[k]).Some?
  }

  /** [float(f) for f in fields]: the first field float() rejects raises. */
  function ParseAll(fields: seq<string>, parse: string -> Option<real>)
    : (r: Result<seq<real>, StatError>)
    ensures r.Ok? ==>
      |r.value| == |fields| &&
      forall i :: 0 <= i < |fields| ==> parse(fields[i]) == Some(r.value[i])
    ensures r.Err? ==>
      exists i :: FirstRejected(fields, parse, i) && r.error == BadNumber(fields[i])
    decreases |fields|
  {
    if fields == [] then Ok([])
    else
      match parse(fields[0])
      case None =>
        assert FirstRejected(fields, parse, 0);
        Err(BadNumber(fields[0]))
      case Some(x) =>
        match ParseAll(fields[1..], parse)
        case Err(e) =>
          var i :| FirstRejected(fields[1..], parse, i) && e == BadNumber(fields[1..][i]);
          assert FirstRejected(fields, parse, i + 1);
          Err(e)
        case Ok(xs) => Ok([x] + xs)
  }

  /** The branch shared by avg and stddev that turns `s` into `lst`. */
  function Normalize(s: Samples, parse: string -> Option<real>)
    : (r: Result<seq<real>, StatError>)
    ensures s.Values? ==> r == Ok(s.values)
    ensures s.Text? && r.Ok? ==> |r.value| >= 1
    ensures r.Err? ==> s.Text? && r.error.BadNumber? && parse(r.error.field) == None
  {
    match s
    case Text(t) =>
      if ',' in t then ParseAll(Split(t), parse)
      else (match parse(t)
            case None => Err(BadNumber(t))
            case Some(x) => Ok([x]))
    case Values(xs) => Ok(xs)
  }

  /** Both string branches are the comma split followed by float(): a string
      without a comma is the one-field case of s.split(','). */
  lemma TextIsSplitThenParse(t: string, parse: string -> Option<real>)
    ensures Normalize(Text(t), parse) == ParseAll(Split(t), parse)
  {
    if ',' !in t {
      NoCommaSplit(t);
      assert Split(t)[1..] == [];
      match parse(t)
      case None =>
      case Some(x) => assert [x] + [] == [x];
    }
  }

  /** A string always normalises to a non-empty list, or fails to parse. */
  lemma TextNeverEmpty(t: string, parse: string -> Option<real>)
    ensures Normalize(Text(t), parse).Ok? ==> |Normalize(Text(t), parse).value| >= 1
  {
    TextIsSplitThenParse(t, parse);
  }

  /** Format invariance: the same numbers given as a comma-joined string
      and as a list normalise to the same list. */
  lemma FormatInvariance(fields: seq<string>, xs: seq<real>,
                         parse: string -> Option<real>)
    requires |fields| >= 1 && CommaFree(fields) && |xs| == |fields|
    requires forall i :: 0 <= i < |fields| ==> parse(fields[i]) == Some(xs[i])
    ensures Normalize(Text(Join(fields)), parse) == Normalize(Values(xs), parse)
  {
    TextIsSplitThenParse(Join(fields), parse);
    JoinSplit(fields);
    ParseAllOk(fields, xs, parse);
  }

  lemma {:induction false} ParseAllOk(fields: seq<string>, xs: seq<real>,
                                      parse: string -> Option<real>)
    requires |xs| == |fields|
    requires forall i :: 0 <= i < |fields| ==> parse(fields[i]) == Some(xs[i])
    ensures ParseAll(fields, parse) == Ok(xs)
    decreases |fields|
  {
    if fields != [] {
      ParseAllOk(fields[1..], xs[1..], parse);
      assert [xs[0]] + xs[1..] == xs;
    }
  }

  // ---------------------------------------------------------------------
  // Reductions

  /** The sum of a list, head first. */
  function Sum(xs: seq<real>): real
    decreases |xs|
  {
    if xs == [] then 0.0 else xs[0] + Sum(xs[1..])
  }

  /** sum(lst) as Python computes it: a running total from the left,
      starting at `acc`. */
  function RunningSum(xs: seq<real>, acc: real): real
    decreases |xs|
  {
    if xs == [] then acc else RunningSum(xs[1..], acc + xs[0])
  }

  /** Adding from the left gives the same total as Sum. */
  lemma {:induction false} RunningSumIsSum(xs: seq<real>, acc: real)
    ensures RunningSum(xs, acc) == acc + Sum(xs)
    decreases |xs|
  {
    if xs != [] {
      RunningSumIsSum(xs[1..], acc + xs[0]);
    }
  }

  /** sum(lst)/len(lst), raising ZeroDivisionError on an empty list. */
  function MeanOf(xs: seq<real>): (r: Result<real, StatError>)
    ensures r.Err? <==> xs == []
    ensures r.Err? ==> r.error == DivisionByZero
    ensures r.Ok? ==> r.value * |xs| as real == Sum(xs)
  {
    if xs == [] then Err(DivisionByZero) else Ok(Sum(xs) / |xs| as real)
  }

  /** avg(s). */
  function Avg(s: Samples, parse: string -> Option<real>): (r: Result<real, StatError>)
    ensures r == Err(DivisionByZero) <==> s == Values([])
    ensures r.Err? && r != Err(DivisionByZero) ==>
      s.Text? && r.error.BadNumber? && parse(r.error.field) == None
    ensures r.Ok? ==> (Normalize(s, parse).Ok? &&
      r.value * |Normalize(s, parse).value| as real == Sum(Normalize(s, parse).value))
  {
    match Normalize(s, parse)
    case Err(e) => Err(e)
    case Ok(xs) => MeanOf(xs)
  }

  /** Sum of squared deviations from m. */
  function SquaredDeviations(xs: seq<real>, m: real): real
    decreases |xs|
  {
    if xs == [] then 0.0 else (xs[0] - m) * (xs[0] - m) + SquaredDeviations(xs[1..], m)
  }

  /** The square of np.std(lst): the population variance, divided by N;
      nan for an empty list. */
  function VarianceOf(xs: seq<real>): (r: Result<real, StatError>)
    ensures r.Err? <==> xs == []
    ensures r.Err? ==> r.error == NotANumber
    ensures r.Ok? ==> r.value >= 0.0
    ensures r.Ok? ==> r.value * |xs| as real == SquaredDeviations(xs, Sum(xs) / |xs| as real)
  {
    if xs == [] then Err(NotANumber)
    else
      var m := Sum(xs) / |xs| as real;
      SquaredDeviationsNonNegative(xs, m);
      Ok(SquaredDeviations(xs, m) / |xs| as real)
  }

  /** The square of stddev(s). */
  function Variance(s: Samples, parse: string -> Option<real>): (r: Result<real, StatError>)
    ensures r == Err(NotANumber) <==> s == Values([])
    ensures r.Err? && r != Err(NotANumber) ==>
      s.Text? && r.error.BadNumber? && parse(r.error.field) == None
    ensures r.Ok? ==> r.value >= 0.0
    ensures r.Ok? ==> (Normalize(s, parse).Ok? &&
      var xs := Normalize(s, parse).value;
      r.value * |xs| as real == SquaredDeviations(xs, Sum(xs) / |xs| as real))
  {
    match Normalize(s, parse)
    case Err(e) => Err(e)
    case Ok(xs) => VarianceOf(xs)
  }

  /** np.std divides by N, not N - 1: two samples a and b have variance
      ((a - b) / 2)^2. */
  lemma TwoSamples(a: real, b: real)
    ensures VarianceOf([a, b]) == Ok((a - b) * (a - b) / 4.0)
  {
    var xs := [a, b];
    assert xs[1..] == [b] && [b][1..] == [];
    assert Sum([b]) == b + Sum([]);
    assert Sum(xs) == a + Sum([b]);
    var m := (a + b) / 2.0;
    assert Sum(xs) / |xs| as real == m;
    assert SquaredDeviations([b], m) == (b - m) * (b - m) + SquaredDeviations([], m);
    assert SquaredDeviations(xs, m) == (a - m) * (a - m) + SquaredDeviations([b], m);
    assert (a - m) * (a - m) + (b - m) * (b - m) == (a - b) * (a - b) / 2.0;
  }

  /** avg on a comma-containing string is the mean of the parsed fields. */
  lemma AvgOfCommaString(t: string, xs: seq<real>, parse: string -> Option<real>)
    requires ',' in t
    requires ParseAll(Split(t), parse) == Ok(xs)
    ensures |xs| >= 2
    ensures Avg(Text(t), parse) == Ok(Sum(xs) / |xs| as real)
  {
    CommaSplitsInTwo(t);
  }

  /** avg on a string without a comma is that one sample. */
  lemma AvgOfSingleString(t: string, x: real, parse: string -> Option<real>)
    requires ',' !in t && parse(t) == Some(x)
    ensures Avg(Text(t), parse) == Ok(x)
  {
    assert Normalize(Text(t), parse) == Ok([x]);
    assert [x][1..] == [];
    assert Sum([x]) == x;
  }

  /** avg and stddev of an empty list: ZeroDivisionError and nan. */
  lemma EmptyListFails(parse: string -> Option<real>)
    ensures Avg(Values([]), parse) == Err(DivisionByZero)
    ensures Variance(Values([]), parse) == Err(NotANumber)
  {
  }

  predicate AllAtMost(xs: seq<real>, hi: real)
  {
    forall i :: 0 <= i < |xs| ==> xs[i] <= hi
  }

  predicate AllAtLeast(xs: seq<real>, lo: real)
  {
    forall i :: 0 <= i < |xs| ==> lo <= xs[i]
  }

  lemma {:induction false} SumBounds(xs: seq<real>, lo: real, hi: real)
    requires AllAtLeast(xs, lo) && AllAtMost(xs, hi)
    ensures |xs| as real * lo <= Sum(xs) <= |xs| as real * hi
    decreases |xs|
  {
    if xs != [] {
      assert AllAtLeast(xs[1..], lo) && AllAtMost(xs[1..], hi);
      SumBounds(xs[1..], lo, hi);
    }
  }

  /** The mean of a non-empty list lies between any lower and upper bound of
      its elements, hence between its minimum and maximum. */
  lemma MeanWithinBounds(xs: seq<real>, lo: real, hi: real)
    requires xs != [] && AllAtLeast(xs, lo) && AllAtMost(xs, hi)
    ensures MeanOf(xs).Ok? && lo <= MeanOf(xs).value <= hi
  {
    SumBounds(xs, lo, hi);
    var n := |xs| as real;
    assert n * lo <= Sum(xs) <= n * hi;
    DivBounds(Sum(xs), n, lo, hi);
  }

  lemma DivBounds(s: real, n: real, lo: real, hi: real)
    requires n > 0.0 && n * lo <= s <= n * hi
    ensures lo <= s / n <= hi
  {
    var q := s / n;
    assert q * n == s;
    assert (q - lo) * n >= 0.0;
    assert (hi - q) * n >= 0.0;
  }

  lemma {:induction false} SquaredDeviationsNonNegative(xs: seq<real>, m: real)
    ensures SquaredDeviations(xs, m) >= 0.0
    decreases |xs|
  {
    if xs != [] {
      SquaredDeviationsNonNegative(xs[1..], m);
      SquareNonNegative(xs[0] - m);
    }
  }

  lemma SquareNonNegative(d: real)
    ensures d * d >= 0.0
  {
    if d < 0.0 {
      assert d * d == (-d) * (-d);
    }
  }

  /** stddev's variance is never negative, whatever the input form. */
  lemma VarianceNonNegative(s: Samples, parse: string -> Option<real>)
    ensures Variance(s, parse).Ok? ==> Variance(s, parse).value >= 0.0
  {
    match Normalize(s, parse)
    case Err(_) =>
    case Ok(xs) =>
      if xs != [] {
        var m := Sum(xs) / |xs| as real;
        SquaredDeviationsNonNegative(xs, m);
      }
  }

  /** avg and stddev share their normalisation: the same numbers as a
      comma-joined string and as a list give the same mean and variance. */
  lemma StatsFormatInvariant(fields: seq<string>, xs: seq<real>,
                             parse: string -> Option<real>)
    requires |fields| >= 1 && CommaFree(fields) && |xs| == |fields|
    requires forall i :: 0 <= i < |fields| ==> parse(fields[i]) == Some(xs[i])
    ensures Avg(Text(Join(fields)), parse) == Avg(Values(xs), parse)
    ensures Variance(Text(Join(fields)), parse) == Variance(Values(xs), parse)
  {
    FormatInvariance(fields, xs, parse);
  }
}
