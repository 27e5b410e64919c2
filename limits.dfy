/** The per-resource rate registry (`Limits`): the most recent rate seen for
    each resource, with an optional hook told about every store. */
module Registry {
  import opened Common
  import opened Http
  import opened Resources
  import opened Rates

  /** One call of the `Notify` hook, with the arguments it received. */
  datatype Notification = Notification(resp: Option<Response>, resource: Resource, rate: Rate)

  /** What collecting a sequence of (resource, rate) pairs into a map gives
      (`maps.Collect`): a later pair for a resource overrides an earlier one. */
  function Collect(entries: seq<(Resource, Rate)>): (m: map<Resource, Rate>)
    ensures m.Keys == set i | 0 <= i < |entries| :: entries[i].0
  {
    if entries == [] then map[]
    else
      var last := entries[|entries| - 1];
      Collect(entries[..|entries| - 1])[last.0 := last.1]
  }

  lemma CollectSnoc(entries: seq<(Resource, Rate)>, e: (Resource, Rate))
    ensures Collect(entries + [e]) == Collect(entries)[e.0 := e.1]
  {
    assert (entries + [e])[..|entries|] == entries;
  }

  /** Taking one more key `r` out of the pending set adds its entry. */
  lemma TakeOne(base: map<Resource, Rate>, src: map<Resource, Rate>, rest: set<Resource>, r: Resource)
    requires r in rest && r in src
    ensures base + (src - (rest - {r})) == (base + (src - rest))[r := src[r]]
  {
  }

  /** Loop state of `Iter`: `entries` lists, once each and with their
      rates, exactly the keys of `m` not in `rest`. */
  ghost predicate Enumerated(m: map<Resource, Rate>, entries: seq<(Resource, Rate)>, rest: set<Resource>)
  {
    && rest <= m.Keys
    && Collect(entries) == m - rest
    && |entries| + |rest| == |m.Keys|
    && (forall i | 0 <= i < |entries| :: entries[i].0 !in rest)
    && (forall i, j | 0 <= i < j < |entries| :: entries[i].0 != entries[j].0)
    && (forall i | 0 <= i < |entries| :: entries[i].0 in m && m[entries[i].0] == entries[i].1)
  }

  lemma EnumerateOne(m: map<Resource, Rate>, entries: seq<(Resource, Rate)>, rest: set<Resource>, r: Resource)
    requires Enumerated(m, entries, rest) && r in rest
    ensures Enumerated(m, entries + [(r, m[r])], rest - {r})
  {
    CollectSnoc(entries, (r, m[r]));
    assert m - (rest - {r}) == (m - rest)[r := m[r]];
  }

  /** Every hook call in `log` from position `from` on was made for `resp`
      with an entry of `resources`. */
  ghost predicate LoggedFrom(log: seq<Notification>, from: nat, resp: Response, resources: map<Resource, Rate>)
  {
    && from <= |log|
    && forall i | from <= i < |log| ::
      log[i].resp == Some(resp) && log[i].resource in resources &&
      log[i].rate == resources[log[i].resource]
  }

  lemma LogOne(log: seq<Notification>, from: nat, resp: Response, resources: map<Resource, Rate>, r: Resource)
    requires LoggedFrom(log, from, resp, resources) && r in resources
    ensures LoggedFrom(log + [Notification(Some(resp), r, resources[r])], from, resp, resources)
    ensures (log + [Notification(Some(resp), r, resources[r])])[..from] == log[..from]
  {
  }

  /** The headers of a response reporting `rate` for `resource`. */
  function ResponseHeaders(resource: Resource, rate: Rate): Headers
  {
    HeadersOf(rate)[ResourceHeader := [resource]]
  }

  lemma ResponseHeadersParse(resource: Resource, rate: Rate)
    ensures ParseResource(ResponseHeaders(resource, rate)) == resource
    ensures ParseRate(ResponseHeaders(resource, rate)) == Ok(rate)
  {
    var h := ResponseHeaders(resource, rate);
    forall f: Field ensures ParseField(h, f) == ParseField(HeadersOf(rate), f) {
      assert HeaderName(f)[2] == 'R' && ResourceHeader[2] == 'R';
      assert HeaderName(f)[11] == '-' && ResourceHeader[11] == '-';
      assert HeaderName(f)[12] != 'R' || HeaderName(f)[13] != 'e' || HeaderName(f)[14] != 's' || HeaderName(f)[15] != 'o';
      assert ResourceHeader[12] == 'R' && ResourceHeader[13] == 'e' && ResourceHeader[14] == 's' && ResourceHeader[15] == 'o';
      assert HeaderName(f) != ResourceHeader;
    }
    ParseRateRoundTrip(rate);
  }

  class Limits {
    /** Resource to its latest rate; an entry is created on first store and
        never removed. */
    var m: map<Resource, Rate>
    /** Whether the `Notify` hook is set. */
    var notify: bool
    /** Every call of the hook so far, oldest first. */
    ghost var notified: seq<Notification>

    /** A registry with no entries; `notify` says whether a hook is installed. */
    constructor (notify: bool)
      ensures m == map[] && this.notify == notify && notified == []
    {
      m := map[];
      this.notify := notify;
      notified := [];
    }

    /** `Load`: the rate stored for `resource`, or nil if none ever was. */
    function Load(resource: Resource): (r: Option<Rate>)
      reads this
      ensures r.Some? <==> resource in m
      ensures r.Some? ==> r.value == m[resource]
    {
      if resource in m then Some(m[resource]) else None
    }

    /** `Store`: overwrite the entry for `resource`, then call the hook, when
        set, exactly once with the same arguments. Every other entry keeps
        its value. */
    method Store(resp: Option<Response>, resource: Resource, rate: Rate)
      modifies this
      ensures m == old(m)[resource := rate]
      ensures notify == old(notify)
      ensures notified == old(notified) + if notify then [Notification(resp, resource, rate)] else []
      ensures Load(resource) == Some(rate)
      ensures forall r :: r != resource ==> Load(r) == old(Load(r))
    {
      m := m[resource := rate];
      if notify {
        notified := notified + [Notification(resp, resource, rate)];
      }
    }

    /** `Iter`: enumerates the registry in an unspecified order, each resource
        once, paired with its latest rate; collecting the pairs rebuilds the
        map. */
    method Iter() returns (entries: seq<(Resource, Rate)>)
      ensures Collect(entries) == m
      ensures |entries| == |m|
      ensures forall i, j | 0 <= i < j < |entries| :: entries[i].0 != entries[j].0
      ensures forall i | 0 <= i < |entries| :: entries[i].0 in m && m[entries[i].0] == entries[i].1
    {
      entries := [];
      var rest := m.Keys;
      assert m - rest == map[];
      while rest != {}
        invariant Enumerated(m, entries, rest)
        decreases rest
      {
        var r :| r in rest;
        EnumerateOne(m, entries, rest, r);
        entries := entries + [(r, m[r])];
        rest := rest - {r};
      }
      assert m - rest == m;
    }

    /** `Parse`: with no resource header nothing happens and no error is
        returned; with a resource but a rate that does not parse, the parse
        error is returned and nothing is stored; otherwise the parsed rate is
        stored under that resource. */
    method Parse(resp: Response) returns (err: Option<ParseError>)
      modifies this
      ensures notify == old(notify)
      ensures ParseResource(resp.header) == "" ==>
        err == None && m == old(m) && notified == old(notified)
      ensures ParseResource(resp.header) != "" && ParseRate(resp.header).Err? ==>
        err == Some(ParseRate(resp.header).error) && m == old(m) && notified == old(notified)
      ensures ParseResource(resp.header) != "" && ParseRate(resp.header).Ok? ==>
        var resource, rate := ParseResource(resp.header), ParseRate(resp.header).value;
        && err == None
        && m == old(m)[resource := rate]
        && notified == old(notified) + if notify then [Notification(Some(resp), resource, rate)] else []
    {
      var resource := ParseResource(resp.header);
      if resource == "" {
        return None;
      }
      var parsed := ParseRate(resp.header);
      if parsed.Err? {
        return Some(parsed.error);
      }
      Store(Some(resp), resource, parsed.value);
      return None;
    }

    /** The last step of `Fetch`: store every entry of the decoded
        `resources` object, in map order. Resources absent from it keep
        their entries, and the hook sees each stored entry once. */
    method StoreAll(resp: Response, resources: map<Resource, Rate>)
      modifies this
      ensures m == old(m) + resources
      ensures notify == old(notify)
      ensures !notify ==> notified == old(notified)
      ensures notify ==> |notified| == |old(notified)| + |resources|
      ensures notified[..|old(notified)|] == old(notified)
      ensures forall i | |old(notified)| <= i < |notified| ::
        notified[i].resp == Some(resp) && notified[i].resource in resources &&
        notified[i].rate == resources[notified[i].resource]
    {
      var rest := resources.Keys;
      while rest != {}
        invariant rest <= resources.Keys
        invariant m == old(m) + (resources - rest)
        invariant notify == old(notify)
        invariant !notify ==> notified == old(notified)
        invariant notify ==> |notified| + |rest| == |old(notified)| + |resources.Keys|
        invariant LoggedFrom(notified, |old(notified)|, resp, resources)
        invariant notified[..|old(notified)|] == old(notified)
        decreases rest
      {
        var r :| r in rest;
        if notify {
          LogOne(notified, |old(notified)|, resp, resources, r);
        }
        TakeOne(old(m), resources, rest, r);
        Store(Some(resp), r, resources[r]);
        rest := rest - {r};
      }
      assert resources - rest == resources;
    }
  }

  /** A response carrying a resource and its four numbers, parsed into an empty
      registry, makes `Load` of that resource return exactly those numbers. */
  method ParseThenLoad(resource: Resource, rate: Rate) returns (loaded: Option<Rate>)
    requires resource != ""
    ensures loaded == Some(rate)
  {
    var limits := new Limits(false);
    ResponseHeadersParse(resource, rate);
    var err := limits.Parse(Response(ResponseHeaders(resource, rate)));
    loaded := limits.Load(resource);
  }
}
