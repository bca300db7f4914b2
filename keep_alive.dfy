/** The client's keep-alive strategy: how long a pooled connection may stay
    idle after a response, read from the response's `Keep-Alive` header (the
    header described in section 19.7.1.1 of RFC 2068). */
module KeepAlive {
  import opened Wrappers
  import opened JavaLang
  import ClientConfig

  /** One parameter of a `Keep-Alive` header as the header parser yields it:
      a name and, when the parameter has one, a value. */
  datatype Element = Element(name: string, value: Option<string>)

  const TimeoutParameter: string := "timeout"
  const MillisPerSecond: int := 1000

  /** The largest number of seconds whose conversion to milliseconds still
      fits in a `long`. */
  const MaxExactSeconds: int := MaxLong / MillisPerSecond

  /** An element that decides the duration: it has a value and its name is
      `timeout` in any letter case. */
  predicate IsTimeout(e: Element)
    ensures IsTimeout(e) <==>
              && e.value.Some?
              && |e.name| == |TimeoutParameter|
              && forall i :: 0 <= i < |e.name| ==> Fold(e.name[i]) == TimeoutParameter[i]
  {
    e.value.Some? && EqualsIgnoreCase(e.name, TimeoutParameter)
  }

  /** `Long.parseLong(value) * 1000`: a number of seconds converted to
      milliseconds with `long` arithmetic, or the parse error. */
  function TimeoutMillis(value: string): (r: Result<int, ParseError>)
    ensures r.Success? <==> ParseLong(value).Success?
    ensures r.Failure? ==> r.error == NumberFormat(value)
    ensures r.Success? ==> InLongRange(r.value)
    ensures r.Success? ==> (r.value - ParseLong(value).value * MillisPerSecond) % LongModulus == 0
    ensures r.Success? && -MaxExactSeconds <= ParseLong(value).value <= MaxExactSeconds ==>
              r.value == ParseLong(value).value * MillisPerSecond
  {
    match ParseLong(value)
    case Success(seconds) => Success(ToLong(seconds * MillisPerSecond))
    case Failure(e) => Failure(e)
  }

  /** The keep-alive duration in milliseconds for a response whose
      `Keep-Alive` header has the given elements, in order. */
  function KeepAliveDuration(elements: seq<Element>): (r: Result<int, ParseError>)
    ensures r.Success? ==> InLongRange(r.value)
    ensures r.Failure? ==> exists i :: 0 <= i < |elements| && IsTimeout(elements[i])
  {
    if elements == [] then Success(ClientConfig.DefaultKeepAliveTime)
    else if IsTimeout(elements[0]) then TimeoutMillis(elements[0].value.value)
    else
      var rest := KeepAliveDuration(elements[1..]);
      assert rest.Failure? ==> exists i :: 0 < i < |elements| && IsTimeout(elements[i]) by {
        if rest.Failure? {
          var i :| 0 <= i < |elements[1..]| && IsTimeout(elements[1..][i]);
          assert elements[i + 1] == elements[1..][i];
        }
      }
      rest
  }

  /** The strategy as the client runs it: scan the elements in order and
      return at the first `timeout` with a value, or fall back to the
      default. A `NumberFormatException` from the parse leaves the scan. */
  method GetKeepAliveDuration(elements: seq<Element>) returns (r: Result<int, ParseError>)
    ensures r == KeepAliveDuration(elements)
  {
    var i := 0;
    while i < |elements|
      invariant 0 <= i <= |elements|
      invariant KeepAliveDuration(elements[i..]) == KeepAliveDuration(elements)
    {
      var element := elements[i];
      assert elements[i..][1..] == elements[i + 1..];
      i := i + 1;
      if element.value.Some? && EqualsIgnoreCase(element.name, TimeoutParameter) {
        var seconds := ParseLong(element.value.value);
        if seconds.Failure? {
          return Failure(seconds.error);
        }
        return Success(ToLong(seconds.value * MillisPerSecond));
      }
    }
    return Success(ClientConfig.DefaultKeepAliveTime);
  }

  // ---------------------------------------------------------------------
  // Properties of the strategy
  // ---------------------------------------------------------------------

  /** With no `timeout` element that has a value, the duration is the default
      of 20 seconds; the empty header is one such case. */
  lemma {:induction false} KeepAliveDefault(elements: seq<Element>)
    requires forall i :: 0 <= i < |elements| ==> !IsTimeout(elements[i])
    ensures KeepAliveDuration(elements) == Success(20000)
  {
    if elements != [] {
      assert forall i :: 0 <= i < |elements[1..]| ==> elements[1..][i] == elements[i + 1];
      KeepAliveDefault(elements[1..]);
    }
  }

  /** The first `timeout` element that has a value decides the duration:
      its value in seconds times 1000, or the parse error. */
  lemma {:induction false} KeepAliveFirstMatch(elements: seq<Element>, k: nat)
    requires k < |elements| && IsTimeout(elements[k])
    requires forall j :: 0 <= j < k ==> !IsTimeout(elements[j])
    ensures KeepAliveDuration(elements) == TimeoutMillis(elements[k].value.value)
  {
    if k > 0 {
      assert forall j :: 0 <= j < |elements[1..]| ==> elements[1..][j] == elements[j + 1];
      KeepAliveFirstMatch(elements[1..], k - 1);
    }
  }

  predicate HasTimeout(elements: seq<Element>) {
    exists i :: 0 <= i < |elements| && IsTimeout(elements[i])
  }

  /** Joining two element sequences: the first decides if it holds a
      `timeout` element with a value, otherwise the second does. So elements
      after the deciding one are never consulted. */
  lemma {:induction false} KeepAliveConcat(xs: seq<Element>, ys: seq<Element>)
    ensures KeepAliveDuration(xs + ys) ==
            if HasTimeout(xs) then KeepAliveDuration(xs) else KeepAliveDuration(ys)
  {
    if xs == [] {
      assert xs + ys == ys;
    } else {
      assert (xs + ys)[1..] == xs[1..] + ys;
      assert (xs + ys)[0] == xs[0];
      KeepAliveConcat(xs[1..], ys);
      if !IsTimeout(xs[0]) {
        assert HasTimeout(xs) == HasTimeout(xs[1..]) by {
          if HasTimeout(xs) {
            var i :| 0 <= i < |xs| && IsTimeout(xs[i]);
            assert xs[1..][i - 1] == xs[i];
          }
          if HasTimeout(xs[1..]) {
            var i :| 0 <= i < |xs[1..]| && IsTimeout(xs[1..][i]);
            assert xs[i + 1] == xs[1..][i];
          }
        }
      }
    }
  }

  /** A malformed timeout is an error, not the default, and no later element
      can change that. */
  lemma {:induction false} KeepAliveFailureIsFinal(xs: seq<Element>, ys: seq<Element>)
    requires KeepAliveDuration(xs).Failure?
    ensures KeepAliveDuration(xs + ys) == KeepAliveDuration(xs)
  {
    KeepAliveConcat(xs, ys);
  }

  /** The elements that can decide the duration, in their original order. */
  function TimeoutElements(elements: seq<Element>): (ts: seq<Element>)
    ensures |ts| <= |elements|
    ensures forall i :: 0 <= i < |ts| ==> IsTimeout(ts[i])
  {
    if elements == [] then []
    else (if IsTimeout(elements[0]) then [elements[0]] else []) + TimeoutElements(elements[1..])
  }

  /** Elements with another name, and `timeout` elements without a value, are
      skipped: removing them all leaves the duration unchanged. */
  lemma {:induction false} KeepAliveIgnoresSkipped(elements: seq<Element>)
    ensures KeepAliveDuration(TimeoutElements(elements)) == KeepAliveDuration(elements)
  {
    if elements != [] {
      KeepAliveIgnoresSkipped(elements[1..]);
      var ts := TimeoutElements(elements[1..]);
      if IsTimeout(elements[0]) {
        assert ([elements[0]] + ts)[0] == elements[0];
      } else {
        assert [] + ts == ts;
      }
    }
  }

  // ---------------------------------------------------------------------
  // Letter case of the parameter name
  // ---------------------------------------------------------------------

  /** The names that select the timeout parameter: `timeout` with each letter
      in either case, where the `i` may also be a dotless or dotted i. */
  lemma {:induction false} TimeoutNameSpellings(name: string)
    ensures EqualsIgnoreCase(name, TimeoutParameter) <==>
            && |name| == 7
            && (name[0] == 't' || name[0] == 'T')
            && (name[1] == 'i' || name[1] == 'I' || name[1] == DotlessSmallI || name[1] == DottedCapitalI)
            && (name[2] == 'm' || name[2] == 'M')
            && (name[3] == 'e' || name[3] == 'E')
            && (name[4] == 'o' || name[4] == 'O')
            && (name[5] == 'u' || name[5] == 'U')
            && (name[6] == 't' || name[6] == 'T')
  {
  }

  /** "timeout", "Timeout" and "TIMEOUT" are the same parameter. */
  lemma {:induction false} TimeoutAnyCase(value: Option<string>)
    ensures IsTimeout(Element("timeout", value)) == IsTimeout(Element("Timeout", value))
    ensures IsTimeout(Element("TIMEOUT", value)) == IsTimeout(Element("timeout", value))
    ensures value.Some? ==> IsTimeout(Element("TIMEOUT", value))
  {
  }

  /** Changing the letter case of element names never changes the duration. */
  lemma {:induction false} KeepAliveCaseInsensitive(xs: seq<Element>, ys: seq<Element>)
    requires |xs| == |ys|
    requires forall i :: 0 <= i < |xs| ==> xs[i].value == ys[i].value && EqualsIgnoreCase(xs[i].name, ys[i].name)
    ensures KeepAliveDuration(xs) == KeepAliveDuration(ys)
  {
    if xs != [] {
      EqualsIgnoreCaseIsEquivalence(xs[0].name, ys[0].name, TimeoutParameter);
      EqualsIgnoreCaseIsEquivalence(ys[0].name, xs[0].name, TimeoutParameter);
      assert IsTimeout(xs[0]) == IsTimeout(ys[0]);
      assert forall i :: 0 <= i < |xs[1..]| ==> xs[1..][i] == xs[i + 1] && ys[1..][i] == ys[i + 1];
      KeepAliveCaseInsensitive(xs[1..], ys[1..]);
    }
  }

  /** The conversion to milliseconds is not clamped: a timeout just past
      `MaxExactSeconds` wraps around to a negative duration. */
  lemma KeepAliveWrapsAround()
    ensures MaxExactSeconds == 9223372036854775
    ensures KeepAliveDuration([Element("timeout", Some(DecimalString(MaxExactSeconds + 1)))]) ==
            Success(-9223372036854775616)
  {
    ParseLongOfDecimalString(MaxExactSeconds + 1);
  }

  /** Headers `timeout=15, max=100`, `foo=bar` and `timeout=-3`. */
  lemma KeepAliveExamples()
    ensures KeepAliveDuration([Element("timeout", Some("15")), Element("max", Some("100"))]) == Success(15000)
    ensures KeepAliveDuration([Element("foo", Some("bar"))]) == Success(20000)
    ensures KeepAliveDuration([Element("Timeout", Some("-3"))]) == Success(-3000)
  {
  }
}
