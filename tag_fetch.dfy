/**
 * The tag collector: for a period, fetch the items of the three curation
 * registries, drop domains that are also listed as tokens, resolve each item's
 * submitter through the canonical indexing service, turn items into tags, and
 * drop tags whose submitter is on a fixed denylist.
 *
 * The indexing services are oracles (`Subgraphs`): pure functions from a query
 * to the items the service returns for it.
 */
module TagFetch {
  import opened Wrappers
  import opened Seqs
  import opened JsText

  datatype Registry = AddressTags | Tokens | Domains

  datatype Status = Absent | Registered | RegistrationRequested | ClearingRequested | RemovalRequested

  datatype Request = Request(requester: string, requestType: string, resolutionTime: string)

  /** A raw registry entry as the indexing service returns it. */
  datatype Item = Item(
    id: string,
    key0: string,
    key1: string,
    key2: string,
    key3: string,
    status: Status,
    requests: seq<Request>,
    latestRequestResolutionTime: string)

  /**
   * A reward-eligible record. `chain` and `latestRequestResolutionTime` are
   * `None` where JavaScript's `Number` yields `NaN`; `tagAddress` is `None`
   * where the key has fewer than three segments (`undefined`).
   */
  datatype Tag = Tag(
    id: string,
    registry: Registry,
    chain: Option<nat>,
    latestRequestResolutionTime: Option<nat>,
    submitter: string,
    tagAddress: Option<string>)

  /** A time window in milliseconds since the epoch, as `Date.getTime()` gives it. */
  datatype Period = Period(startMs: int, endMs: int)

  /** A chain-qualified address `namespace:chainId:address`, taken apart. */
  datatype Caip = Caip(chain: Option<nat>, address: Option<string>)

  /** The contract addresses of the three registries. */
  datatype RegistryAddresses = RegistryAddresses(addressTags: string, tokens: string, domains: string)

  /** The batch query: items of one registry, with a status in `statusIn`, resolved in `[resolvedFrom, resolvedBefore)` seconds, at most `first` of them. */
  datatype BatchQuery = BatchQuery(
    registryAddress: string,
    statusIn: seq<Status>,
    resolvedFrom: int,
    resolvedBefore: int,
    first: nat)

  /** The per-address query: items of one registry whose first key starts and ends with `caipAddress`. */
  datatype AddressQuery = AddressQuery(registry: string, caipAddress: string)

  /**
   * The indexing services: `batch` and `byAddress` answer on the original
   * endpoint, `canonical` maps an item id to the items the canonical endpoint
   * returns for it.
   */
  datatype Subgraphs = Subgraphs(
    batch: BatchQuery -> seq<Item>,
    byAddress: AddressQuery -> seq<Item>,
    canonical: string -> seq<Item>)

  datatype FetchError = RequesterNotFound(itemId: string)

  /** The page size of the batch query; later items are never fetched. */
  const BatchLimit: nat := 1000

  /** Auxiliary submitters whose tags are never rewarded (compared case-sensitively). */
  const Denylist: seq<string> := [
    "0xf313d85c7fef79118fcd70498c71bf94e75fc2f6",
    "0xd0e76cfaa8af741f3a8b107eca76d393f734dace",
    "0x6f8e399b94e117d9e44311306c4c756369682720",
    "0xbf45d3c81f587833635b3a1907f5a26c208532e7"
  ]

  function RegistryAddress(conf: RegistryAddresses, kind: Registry): string
  {
    match kind
    case AddressTags => conf.addressTags
    case Tokens => conf.tokens
    case Domains => conf.domains
  }

  /** Items of registry `kind` whose first key matches `caipAddress`, from the original endpoint. */
  function FetchTagsByAddressInRegistry(caipAddress: string, kind: Registry, conf: RegistryAddresses, sub: Subgraphs): seq<Item>
  {
    sub.byAddress(AddressQuery(RegistryAddress(conf, kind), caipAddress))
  }

  /**
   * The batch query for one registry and period: the period bounds are turned
   * into whole seconds by rounding down, and the query asks for registered or
   * clearing-requested items, at most `BatchLimit` of them.
   */
  function BatchQueryFor(period: Period, registry: string): (q: BatchQuery)
    ensures q.registryAddress == registry
    ensures q.statusIn == [Registered, ClearingRequested] && q.first == 1000
    ensures q.resolvedFrom * 1000 <= period.startMs < q.resolvedFrom * 1000 + 1000
    ensures q.resolvedBefore * 1000 <= period.endMs < q.resolvedBefore * 1000 + 1000
  {
    BatchQuery(registry, [Registered, ClearingRequested], period.startMs / 1000, period.endMs / 1000, BatchLimit)
  }

  /** Whether a resolution time `t` (in seconds) satisfies the query's `_gte`/`_lt` bounds. */
  predicate InWindow(q: BatchQuery, t: int)
  {
    q.resolvedFrom <= t < q.resolvedBefore
  }

  /**
   * The second `t` is selected exactly when it ends after the period starts and
   * no later than the period ends: the lower bound is inclusive, the upper exclusive.
   */
  lemma BatchWindow(period: Period, registry: string, t: int)
    ensures InWindow(BatchQueryFor(period, registry), t) <==> period.startMs < (t + 1) * 1000 <= period.endMs
  {
    var q := BatchQueryFor(period, registry);
    assert q.resolvedFrom <= t <==> period.startMs < (t + 1) * 1000;
    assert t < q.resolvedBefore <==> (t + 1) * 1000 <= period.endMs;
  }

  /** For a period on whole seconds, the window is exactly `[start, end)`. */
  lemma BatchWindowWholeSeconds(period: Period, registry: string, t: int)
    requires period.startMs % 1000 == 0 && period.endMs % 1000 == 0
    ensures InWindow(BatchQueryFor(period, registry), t) <==> period.startMs <= t * 1000 < period.endMs
  {
    BatchWindow(period, registry, t);
  }

  function FetchTagsBatchByRegistry(period: Period, registry: string, sub: Subgraphs): seq<Item>
  {
    sub.batch(BatchQueryFor(period, registry))
  }

  /**
   * The submitter of item `itemId` according to the canonical endpoint: the
   * requester of the first request of the first item returned. With no item or
   * no request, the lookup fails.
   */
  function FetchCorrectRequester(sub: Subgraphs, itemId: string): (r: Result<string, FetchError>)
    ensures r.Failure? <==> |sub.canonical(itemId)| == 0 || |sub.canonical(itemId)[0].requests| == 0
    ensures r.Failure? ==> r.error == RequesterNotFound(itemId)
    ensures r.Success? ==> r.value == sub.canonical(itemId)[0].requests[0].requester
  {
    var found := sub.canonical(itemId);
    if |found| == 0 || |found[0].requests| == 0 then Failure(RequesterNotFound(itemId))
    else Success(found[0].requests[0].requester)
  }

  /** `caip.split(":")`, keeping segment 1 (as a number) and segment 2; other segments are ignored. */
  function ParseCaip(caip: string): (c: Caip)
    ensures c.address.Some? ==> ':' !in c.address.value
  {
    var parts := Split(caip, ':');
    Caip(if |parts| > 1 then JsNumber(parts[1]) else None,
         if |parts| > 2 then Some(parts[2]) else None)
  }

  /**
   * On `namespace:chainId:address[:more...]` the chain is the number in the
   * second segment and the address the third, however many segments follow.
   */
  lemma ParseCaipSegments(parts: seq<string>)
    requires |parts| >= 3
    requires forall i :: 0 <= i < |parts| ==> ':' !in parts[i]
    ensures ParseCaip(Join(parts, ':')) == Caip(JsNumber(parts[1]), Some(parts[2]))
  {
    SplitJoin(parts, ':');
  }

  /** A worked example: `eip155:100:0xabc` is chain 100, address `0xabc`. */
  lemma ParseCaipExample()
    ensures ParseCaip("eip155:100:0xabc") == Caip(Some(100), Some("0xabc"))
  {
    var parts := ["eip155", "100", "0xabc"];
    assert Join(parts, ':') == "eip155:100:0xabc" by {
      assert Join(parts[2..], ':') == "0xabc";
      assert Join(parts[1..], ':') == "100:0xabc";
    }
    ParseCaipSegments(parts);
    assert DigitsValue("100") == 100 by {
      assert "100"[..2] == "10" && "10"[..1] == "1" && "1"[..0] == "";
    }
  }

  /** The tag for `item` found in registry `kind`; fails when its submitter cannot be resolved. */
  function ItemToTag(item: Item, kind: Registry, sub: Subgraphs): (r: Result<Tag, FetchError>)
    ensures r.Success? <==> FetchCorrectRequester(sub, item.id).Success?
    ensures r.Success? ==>
      && r.value.id == item.id
      && r.value.registry == kind
      && r.value.submitter == FetchCorrectRequester(sub, item.id).value
      && r.value.chain == ParseCaip(item.key0).chain
      && r.value.tagAddress == ParseCaip(item.key0).address
      && r.value.latestRequestResolutionTime == JsNumber(item.latestRequestResolutionTime)
  {
    var requester :- FetchCorrectRequester(sub, item.id);
    var caip := ParseCaip(item.key0);
    Success(Tag(item.id, kind, caip.chain, JsNumber(item.latestRequestResolutionTime), requester, caip.address))
  }

  /** A tag built from a well-formed key carries the key's chain and address segments and the canonical submitter. */
  lemma ItemToTagFromKey(item: Item, kind: Registry, sub: Subgraphs, parts: seq<string>)
    requires |parts| >= 3 && forall i :: 0 <= i < |parts| ==> ':' !in parts[i]
    requires item.key0 == Join(parts, ':')
    requires |sub.canonical(item.id)| > 0 && |sub.canonical(item.id)[0].requests| > 0
    ensures ItemToTag(item, kind, sub) == Success(Tag(
      item.id, kind, JsNumber(parts[1]), JsNumber(item.latestRequestResolutionTime),
      sub.canonical(item.id)[0].requests[0].requester, Some(parts[2])))
  {
    ParseCaipSegments(parts);
  }

  /**
   * `Promise.all(items.map(item => itemToTag(item, kind)))`: succeeds when every
   * item converts, and then holds each item's tag at the item's position.
   */
  function ItemsToTags(items: seq<Item>, kind: Registry, sub: Subgraphs): (r: Result<seq<Tag>, FetchError>)
    ensures r.Success? <==> forall i :: 0 <= i < |items| ==> ItemToTag(items[i], kind, sub).Success?
    ensures r.Success? ==> |r.value| == |items|
    ensures r.Success? ==> forall i :: 0 <= i < |items| ==> ItemToTag(items[i], kind, sub) == Success(r.value[i])
    ensures r.Success? ==> forall tag :: tag in r.value ==> tag.registry == kind
    decreases |items|
  {
    if items == [] then Success([])
    else
      var tag :- ItemToTag(items[0], kind, sub);
      var tags :- ItemsToTags(items[1..], kind, sub);
      assert forall i :: 1 <= i < |items| ==> items[i] == items[1..][i - 1];
      Success([tag] + tags)
  }

  /** Token-registry entries that mark an address as a token. */
  predicate IsListedToken(item: Item)
  {
    item.status in [Registered, RemovalRequested]
  }

  /**
   * A domain item is kept when its token-registry lookup holds no entry with
   * status `Registered` or `RemovalRequested`.
   */
  function IsNonTokenDomain(item: Item, conf: RegistryAddresses, sub: Subgraphs): (nonToken: bool)
    ensures var matches := FetchTagsByAddressInRegistry(item.key0, Tokens, conf, sub);
      nonToken <==> forall i :: 0 <= i < |matches| ==> matches[i].status != Registered && matches[i].status != RemovalRequested
  {
    var matches := FetchTagsByAddressInRegistry(item.key0, Tokens, conf, sub);
    FilterEmptyIff(matches, IsListedToken);
    |Filter(matches, IsListedToken)| == 0
  }

  function NonTokenTest(conf: RegistryAddresses, sub: Subgraphs): Item -> bool
  {
    item => IsNonTokenDomain(item, conf, sub)
  }

  /** The domain items that are not also registered as tokens, in their original order. */
  function NonTokenDomains(domainItems: seq<Item>, conf: RegistryAddresses, sub: Subgraphs): (r: seq<Item>)
    ensures |r| <= |domainItems|
    ensures forall item :: item in r <==> item in domainItems && IsNonTokenDomain(item, conf, sub)
  {
    Filter(domainItems, NonTokenTest(conf, sub))
  }

  /** The kept domains are an order-preserving subsequence of the fetched ones. */
  lemma NonTokenDomainsSubsequence(domainItems: seq<Item>, conf: RegistryAddresses, sub: Subgraphs)
    ensures IsSubsequence(NonTokenDomains(domainItems, conf, sub), domainItems)
  {
    FilterIsSubsequence(domainItems, NonTokenTest(conf, sub));
  }

  /** The loop of `nonTokensFromDomains`: one token lookup per domain item, pushing those with no listed match. */
  method NonTokensFromDomains(domainItems: seq<Item>, conf: RegistryAddresses, sub: Subgraphs)
    returns (nonTokenDomains: seq<Item>)
    ensures nonTokenDomains == NonTokenDomains(domainItems, conf, sub)
  {
    nonTokenDomains := [];
    for i := 0 to |domainItems|
      invariant nonTokenDomains == NonTokenDomains(domainItems[..i], conf, sub)
    {
      var item := domainItems[i];
      var tagMatches := FetchTagsByAddressInRegistry(item.key0, Tokens, conf, sub);
      var includedItems := Filter(tagMatches, IsListedToken);
      if |includedItems| == 0 {
        nonTokenDomains := nonTokenDomains + [item];
      }
      assert domainItems[..i + 1] == domainItems[..i] + [item];
      FilterConcat(domainItems[..i], [item], NonTokenTest(conf, sub));
    }
    assert domainItems[..|domainItems|] == domainItems;
  }

  predicate NotDenylisted(tag: Tag)
  {
    tag.submitter !in Denylist
  }

  /** The final step of `fetchTags`: concatenate the three registries' tags in order and drop denylisted submitters. */
  function CollectTags(addressTags: seq<Tag>, tokens: seq<Tag>, domains: seq<Tag>): (r: seq<Tag>)
    ensures forall tag :: tag in r ==> tag.submitter !in Denylist
    ensures forall tag :: tag in r <==> (tag in addressTags || tag in tokens || tag in domains) && NotDenylisted(tag)
  {
    Filter(addressTags + tokens + domains, NotDenylisted)
  }

  /** The output is the address tags, then the tokens, then the domains, each filtered in its fetched order. */
  lemma CollectTagsOrder(addressTags: seq<Tag>, tokens: seq<Tag>, domains: seq<Tag>)
    ensures CollectTags(addressTags, tokens, domains)
      == Filter(addressTags, NotDenylisted) + Filter(tokens, NotDenylisted) + Filter(domains, NotDenylisted)
  {
    FilterConcat(addressTags + tokens, domains, NotDenylisted);
    FilterConcat(addressTags, tokens, NotDenylisted);
  }

  /** The items of registry `kind` that become tags: the fetched batch, with token domains removed. */
  function EligibleItems(period: Period, conf: RegistryAddresses, sub: Subgraphs, kind: Registry): seq<Item>
  {
    var fetched := FetchTagsBatchByRegistry(period, RegistryAddress(conf, kind), sub);
    if kind == Domains then NonTokenDomains(fetched, conf, sub) else fetched
  }

  /** `fetchTags`: all tags of the period, or the first failure to resolve a submitter. */
  function FetchTags(period: Period, conf: RegistryAddresses, sub: Subgraphs): Result<seq<Tag>, FetchError>
  {
    var addressTags :- ItemsToTags(EligibleItems(period, conf, sub, AddressTags), AddressTags, sub);
    var tokens :- ItemsToTags(EligibleItems(period, conf, sub, Tokens), Tokens, sub);
    var domains :- ItemsToTags(EligibleItems(period, conf, sub, Domains), Domains, sub);
    Success(CollectTags(addressTags, tokens, domains))
  }

  /** No tag of a denylisted submitter is ever returned. */
  lemma FetchTagsDenylist(period: Period, conf: RegistryAddresses, sub: Subgraphs)
    ensures FetchTags(period, conf, sub).Success? ==>
      forall tag :: tag in FetchTags(period, conf, sub).value ==> tag.submitter !in Denylist
  {
  }

  /**
   * Fetching succeeds exactly when every eligible item of every registry has a
   * resolvable submitter, and then returns the three registries' tags in order,
   * each without denylisted submitters.
   */
  lemma FetchTagsShape(period: Period, conf: RegistryAddresses, sub: Subgraphs)
    ensures FetchTags(period, conf, sub).Success? <==>
      forall kind: Registry, i :: 0 <= i < |EligibleItems(period, conf, sub, kind)| ==>
        ItemToTag(EligibleItems(period, conf, sub, kind)[i], kind, sub).Success?
    ensures FetchTags(period, conf, sub).Success? ==>
      FetchTags(period, conf, sub).value ==
        Filter(ItemsToTags(EligibleItems(period, conf, sub, AddressTags), AddressTags, sub).value, NotDenylisted)
        + Filter(ItemsToTags(EligibleItems(period, conf, sub, Tokens), Tokens, sub).value, NotDenylisted)
        + Filter(ItemsToTags(EligibleItems(period, conf, sub, Domains), Domains, sub).value, NotDenylisted)
  {
    var a := ItemsToTags(EligibleItems(period, conf, sub, AddressTags), AddressTags, sub);
    var t := ItemsToTags(EligibleItems(period, conf, sub, Tokens), Tokens, sub);
    var d := ItemsToTags(EligibleItems(period, conf, sub, Domains), Domains, sub);
    if a.Success? && t.Success? && d.Success? {
      CollectTagsOrder(a.value, t.value, d.value);
    }
  }

  /**
   * Every returned tag comes from an eligible item of the registry it names,
   * and every eligible item whose submitter is not denylisted yields a returned tag.
   */
  lemma FetchTagsProvenance(period: Period, conf: RegistryAddresses, sub: Subgraphs)
    ensures FetchTags(period, conf, sub).Success? ==>
      forall tag :: tag in FetchTags(period, conf, sub).value ==>
        exists i :: 0 <= i < |EligibleItems(period, conf, sub, tag.registry)| &&
          ItemToTag(EligibleItems(period, conf, sub, tag.registry)[i], tag.registry, sub) == Success(tag)
    ensures FetchTags(period, conf, sub).Success? ==>
      forall kind: Registry, i :: 0 <= i < |EligibleItems(period, conf, sub, kind)| ==>
        var tag := ItemToTag(EligibleItems(period, conf, sub, kind)[i], kind, sub).value;
        tag.submitter !in Denylist ==> tag in FetchTags(period, conf, sub).value
  {
    var r := FetchTags(period, conf, sub);
    if r.Success? {
      var a := ItemsToTags(EligibleItems(period, conf, sub, AddressTags), AddressTags, sub);
      var t := ItemsToTags(EligibleItems(period, conf, sub, Tokens), Tokens, sub);
      var d := ItemsToTags(EligibleItems(period, conf, sub, Domains), Domains, sub);
      assert r.value == CollectTags(a.value, t.value, d.value);
      forall tag | tag in r.value
        ensures exists i :: 0 <= i < |EligibleItems(period, conf, sub, tag.registry)| &&
                            ItemToTag(EligibleItems(period, conf, sub, tag.registry)[i], tag.registry, sub) == Success(tag)
      {
        var src := if tag in a.value then a else if tag in t.value then t else d;
        var kind := if tag in a.value then AddressTags else if tag in t.value then Tokens else Domains;
        var j :| 0 <= j < |src.value| && src.value[j] == tag;
        assert ItemToTag(EligibleItems(period, conf, sub, kind)[j], kind, sub) == Success(tag);
      }
      forall kind: Registry, i | 0 <= i < |EligibleItems(period, conf, sub, kind)|
        ensures var tag := ItemToTag(EligibleItems(period, conf, sub, kind)[i], kind, sub).value;
          tag.submitter !in Denylist ==> tag in r.value
      {
        var src := match kind case AddressTags => a case Tokens => t case Domains => d;
        assert src.value[i] in src.value;
      }
    }
  }

  /**
   * One registered address tag `eip155:100:0xabc` whose canonical requester is
   * `submitter`, and nothing in the other registries, gives exactly one tag.
   */
  lemma SingleAddressTagScenario(period: Period, conf: RegistryAddresses, sub: Subgraphs, item: Item, submitter: string)
    requires FetchTagsBatchByRegistry(period, conf.addressTags, sub) == [item]
    requires FetchTagsBatchByRegistry(period, conf.tokens, sub) == []
    requires FetchTagsBatchByRegistry(period, conf.domains, sub) == []
    requires item.key0 == "eip155:100:0xabc"
    requires |sub.canonical(item.id)| > 0 && |sub.canonical(item.id)[0].requests| > 0
    requires sub.canonical(item.id)[0].requests[0].requester == submitter
    requires submitter !in Denylist
    ensures FetchTags(period, conf, sub) == Success([
      Tag(item.id, AddressTags, Some(100), JsNumber(item.latestRequestResolutionTime), submitter, Some("0xabc"))])
  {
    ParseCaipExample();
    var tag := Tag(item.id, AddressTags, Some(100), JsNumber(item.latestRequestResolutionTime), submitter, Some("0xabc"));
    assert ItemToTag(item, AddressTags, sub) == Success(tag);
    var a := ItemsToTags(EligibleItems(period, conf, sub, AddressTags), AddressTags, sub);
    var t := ItemsToTags(EligibleItems(period, conf, sub, Tokens), Tokens, sub);
    var d := ItemsToTags(EligibleItems(period, conf, sub, Domains), Domains, sub);
    assert [item][0] == item;
    assert a.Success? && |a.value| == 1 && a.value[0] == tag;
    assert a.value == [tag];
    assert t == Success([]);
    assert d == Success([]) by {
      assert EligibleItems(period, conf, sub, Domains) == NonTokenDomains([], conf, sub) == [];
    }
    assert CollectTags([tag], [], []) == [tag] by {
      assert [tag] + [] + [] == [tag];
      assert Filter([tag], NotDenylisted) == [tag] + Filter([tag][1..], NotDenylisted);
    }
    assert FetchTags(period, conf, sub) == Success(CollectTags(a.value, t.value, d.value));
  }

  /** A domain whose address is a registered token yields no tag. */
  lemma TokenDomainScenario(period: Period, conf: RegistryAddresses, sub: Subgraphs, item: Item, token: Item)
    requires FetchTagsBatchByRegistry(period, conf.addressTags, sub) == []
    requires FetchTagsBatchByRegistry(period, conf.tokens, sub) == []
    requires FetchTagsBatchByRegistry(period, conf.domains, sub) == [item]
    requires token in FetchTagsByAddressInRegistry(item.key0, Tokens, conf, sub) && token.status == Registered
    ensures FetchTags(period, conf, sub) == Success([])
  {
    assert !IsNonTokenDomain(item, conf, sub);
    assert NonTokenDomains([item], conf, sub) == [];
  }
}
