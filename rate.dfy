/** Per-resource rate information and its parse from the `X-RateLimit-*`
    response headers. */
module Rates {
  import opened Common
  import opened Http
  import Decimal

  /** One resource's rate-limit record: four unsigned 64-bit counters. Values
      are kept as the server sent them: nothing ties `remaining` to
      `limit - used`. */
  datatype Rate = Rate(limit: U64, used: U64, remaining: U64, reset: U64)

  /** The four numeric headers, in the order the parser reads them. */
  datatype Field = Limit | Used | Remaining | Reset

  function Rank(f: Field): nat
  {
    match f
    case Limit => 0
    case Used => 1
    case Remaining => 2
    case Reset => 3
  }

  /** Canonical header key of each field. */
  function HeaderName(f: Field): string
  {
    match f
    case Limit => "X-Ratelimit-Limit"
    case Used => "X-Ratelimit-Used"
    case Remaining => "X-Ratelimit-Remaining"
    case Reset => "X-Ratelimit-Reset"
  }

  function FieldOf(r: Rate, f: Field): U64
  {
    match f
    case Limit => r.limit
    case Used => r.used
    case Remaining => r.remaining
    case Reset => r.reset
  }

  /** "failed to parse X-RateLimit-<field> header". */
  datatype ParseError = ParseError(field: Field)

  /** The base-10 value of one field's header, if it has one. */
  function ParseField(h: Headers, f: Field): Option<U64>
  {
    Decimal.ParseUint(Get(h, HeaderName(f)))
  }

  /** A fresh rate from the four headers. It succeeds exactly when every header
      holds a base-10 uint64, and then holds those four values; otherwise the
      error names the first failing header in the order limit, used,
      remaining, reset. */
  function ParseRate(h: Headers): (r: Result<Rate, ParseError>)
    ensures r.Ok? <==>
      ParseField(h, Limit).Some? && ParseField(h, Used).Some? &&
      ParseField(h, Remaining).Some? && ParseField(h, Reset).Some?
    ensures r.Ok? ==>
      && r.value.limit == ParseField(h, Limit).value
      && r.value.used == ParseField(h, Used).value
      && r.value.remaining == ParseField(h, Remaining).value
      && r.value.reset == ParseField(h, Reset).value
    ensures r.Err? ==> ParseField(h, r.error.field).None?
    ensures r.Err? ==> forall f :: Rank(f) < Rank(r.error.field) ==> ParseField(h, f).Some?
  {
    match ParseField(h, Limit)
    case None => Err(ParseError(Limit))
    case Some(limit) =>
      match ParseField(h, Used)
      case None => Err(ParseError(Used))
      case Some(used) =>
        match ParseField(h, Remaining)
        case None => Err(ParseError(Remaining))
        case Some(remaining) =>
          match ParseField(h, Reset)
          case None => Err(ParseError(Reset))
          case Some(reset) => Ok(Rate(limit, used, remaining, reset))
  }

  /** The headers a server sends for a rate: each field in plain decimal. */
  function HeadersOf(r: Rate): Headers
  {
    map[HeaderName(Limit) := [Decimal.Format(r.limit)],
        HeaderName(Used) := [Decimal.Format(r.used)],
        HeaderName(Remaining) := [Decimal.Format(r.remaining)],
        HeaderName(Reset) := [Decimal.Format(r.reset)]]
  }

  lemma HeadersOfGet(r: Rate, f: Field)
    ensures Get(HeadersOf(r), HeaderName(f)) == Decimal.Format(FieldOf(r, f))
  {
    assert HeaderName(Limit)[12] == 'L';
    assert HeaderName(Used)[12] == 'U';
    assert HeaderName(Remaining)[12] == 'R' && HeaderName(Remaining)[14] == 'm';
    assert HeaderName(Reset)[12] == 'R' && HeaderName(Reset)[14] == 's';
  }

  /** Parsing the headers of any rate gives that rate back: the parse is
      faithful to every field and does not recompute any. */
  lemma {:induction false} ParseRateRoundTrip(r: Rate)
    ensures ParseRate(HeadersOf(r)) == Ok(r)
  {
    forall f: Field ensures ParseField(HeadersOf(r), f) == Some(FieldOf(r, f)) {
      HeadersOfGet(r, f);
      Decimal.ParseFormat(FieldOf(r, f));
    }
  }

  /** Values are stored as given: a rate whose remaining count disagrees with
      limit minus used parses unchanged. */
  lemma RemainingNotRecomputed()
    ensures ParseRate(HeadersOf(Rate(5000, 1000, 4500, 1633036800))) == Ok(Rate(5000, 1000, 4500, 1633036800))
  {
    ParseRateRoundTrip(Rate(5000, 1000, 4500, 1633036800));
  }

  /** An absent or empty limit header, or one holding any character that is
      not a decimal digit, fails the parse at the limit field, whatever the
      other headers hold. */
  lemma BadLimitFailsFirst(h: Headers)
    requires
      var v := Get(h, HeaderName(Limit));
      HeaderName(Limit) !in h || v == "" || exists i | 0 <= i < |v| :: !Decimal.IsDigit(v[i])
    ensures ParseRate(h) == Err(ParseError(Limit))
  {
  }

  /** The Go `*Rate`, whose four fields are updated in place one at a time. */
  class RateCell {
    var limit: U64
    var used: U64
    var remaining: U64
    var reset: U64

    function Value(): Rate
      reads this
    {
      Rate(limit, used, remaining, reset)
    }

    /** `NewRate`: a record holding exactly the four given values. */
    constructor NewRate(limit: U64, used: U64, remaining: U64, reset: U64)
      ensures Value() == Rate(limit, used, remaining, reset)
    {
      this.limit := limit;
      this.used := used;
      this.remaining := remaining;
      this.reset := reset;
    }

    /** `Equal`: the two records hold the same four values. */
    function Equal(b: RateCell): (r: bool)
      reads this, b
      ensures r <==> Value() == b.Value()
    {
      limit == b.limit && used == b.used && remaining == b.remaining && reset == b.reset
    }

    /** Whether `Parse` stored field `f` before it stopped with `err`. */
    static predicate Written(err: Option<ParseError>, f: Field)
    {
      err.None? || Rank(f) < Rank(err.value.field)
    }

    /** `(*Rate).Parse`: reads the four headers in order, storing each value as
        soon as it parses and returning at the first failure, so the fields
        before the failing header are already overwritten and those after it
        keep their old values. */
    method Parse(h: Headers) returns (err: Option<ParseError>)
      modifies this
      ensures err.None? <==> ParseRate(h).Ok?
      ensures err.Some? ==> err.value == ParseRate(h).error
      ensures err.None? ==> Value() == ParseRate(h).value
      ensures Written(err, Limit) ==> ParseField(h, Limit) == Some(limit)
      ensures Written(err, Used) ==> ParseField(h, Used) == Some(used)
      ensures Written(err, Remaining) ==> ParseField(h, Remaining) == Some(remaining)
      ensures Written(err, Reset) ==> ParseField(h, Reset) == Some(reset)
      ensures !Written(err, Limit) ==> limit == old(limit)
      ensures !Written(err, Used) ==> used == old(used)
      ensures !Written(err, Remaining) ==> remaining == old(remaining)
      ensures !Written(err, Reset) ==> reset == old(reset)
    {
      var v := ParseField(h, Limit);
      if v.None? {
        return Some(ParseError(Limit));
      }
      limit := v.value;
      v := ParseField(h, Used);
      if v.None? {
        return Some(ParseError(Used));
      }
      used := v.value;
      v := ParseField(h, Remaining);
      if v.None? {
        return Some(ParseError(Remaining));
      }
      remaining := v.value;
      v := ParseField(h, Reset);
      if v.None? {
        return Some(ParseError(Reset));
      }
      reset := v.value;
      return None;
    }
  }
}
