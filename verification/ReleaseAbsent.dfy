/** Searching a paginated release listing, drafts included, for a tag that must not be there yet. */
module ReleaseAbsent {
  import opened Bytes

  const PER_PAGE := 100
  const PAGES := 100

  /** An answer of the service: an HTTP error, something unusable, or a decoded value. */
  datatype Response<+T> = HttpError(code: int) | Broken | Answer(value: T)

  /** `None` for a field that is absent or of the wrong type. */
  datatype Release = Release(tagName: Option<string>, draft: Option<bool>)

  /** `None` stands for a value that is not an object, or not a list of at most a hundred. */
  type Page = Option<seq<Option<Release>>>

  datatype Service = Service(
    tagged: Response<Option<Release>>,
    pushVisible: Response<bool>,
    page: int -> Response<Page>)

  /** What a run is given besides the service. */
  datatype Request = Request(
    repositoryValid: bool, tag: string, token: string, actionsWriteToken: bool, trustedContext: bool)

  datatype Lookup = Absent | Found(release: Release) | LookupError

  predicate ValidItem(item: Option<Release>) {
    item.Some? && item.value.tagName.Some? && item.value.draft.Some?
  }

  predicate ValidPage(answer: Response<Page>) {
    answer.Answer? && answer.value.Some? && |answer.value.value| <= PER_PAGE
  }

  /** A page of well-formed releases, none of which carries the tag. */
  predicate CleanPage(answer: Response<Page>, tag: string) {
    && ValidPage(answer)
    && forall i :: 0 <= i < |answer.value.value| ==>
      ValidItem(answer.value.value[i]) && answer.value.value[i].value.tagName != Some(tag)
  }

  /** Full clean pages up to `last`, which is clean and not full. */
  predicate Exhausted(service: Service, tag: string, last: int) {
    && 1 <= last <= PAGES
    && (forall k :: 1 <= k <= last ==> CleanPage(service.page(k), tag))
    && (forall k :: 1 <= k < last ==> |service.page(k).value.value| == PER_PAGE)
    && |service.page(last).value.value| < PER_PAGE
  }

  predicate Admitted(request: Request) {
    && request.token != "" && request.repositoryValid && request.tag != ""
    && (request.actionsWriteToken ==> request.trustedContext)
  }

  /** The first item that is not a well-formed release without the tag is a release with it. */
  predicate Hit(items: seq<Option<Release>>, tag: string, i: int) {
    && 0 <= i < |items| && ValidItem(items[i]) && items[i].value.tagName == Some(tag)
    && forall k :: 0 <= k < i ==> ValidItem(items[k]) && items[k].value.tagName != Some(tag)
  }

  /** Full clean pages up to `last`, and on it a release with the tag at `i`. */
  predicate Listed(service: Service, tag: string, last: int, i: int) {
    && 1 <= last <= PAGES
    && (forall k :: 1 <= k < last ==> CleanPage(service.page(k), tag) && |service.page(k).value.value| == PER_PAGE)
    && ValidPage(service.page(last)) && Hit(service.page(last).value.value, tag, i)
  }

  /** The listing may be consulted: no published release, and drafts would be visible. */
  predicate ListingConsulted(service: Service, request: Request) {
    && Admitted(request) && service.tagged == HttpError(404)
    && (request.actionsWriteToken || service.pushVisible == Answer(true))
  }

  method SearchPage(items: seq<Option<Release>>, tag: string) returns (r: Lookup)
    ensures r.Absent? <==>
      forall i :: 0 <= i < |items| ==> ValidItem(items[i]) && items[i].value.tagName != Some(tag)
    ensures forall release :: r == Found(release) <==> exists i :: Hit(items, tag, i) && items[i] == Some(release)
  {
    var i := 0;
    while i < |items|
      invariant 0 <= i <= |items|
      invariant forall k :: 0 <= k < i ==> ValidItem(items[k]) && items[k].value.tagName != Some(tag)
    {
      if items[i].None? || items[i].value.tagName.None? || items[i].value.draft.None? {
        return LookupError;
      }
      if items[i].value.tagName == Some(tag) {
        assert Hit(items, tag, i);
        return Found(items[i].value);
      }
      i := i + 1;
    }
    return Absent;
  }

  method SearchListing(service: Service, tag: string) returns (r: Lookup)
    ensures r.Absent? <==> exists last :: Exhausted(service, tag, last)
    ensures forall release :: r == Found(release) <==>
      exists last, i :: Listed(service, tag, last, i) && service.page(last).value.value[i] == Some(release)
  {
    var page := 1;
    while page <= PAGES
      invariant 1 <= page <= PAGES + 1
      invariant forall k :: 1 <= k < page ==>
        CleanPage(service.page(k), tag) && |service.page(k).value.value| == PER_PAGE
    {
      var answer := service.page(page);
      if !answer.Answer? || answer.value.None? || |answer.value.value| > PER_PAGE {
        return LookupError;
      }
      var searched := SearchPage(answer.value.value, tag);
      if !searched.Absent? {
        if searched.Found? {
          var i :| Hit(answer.value.value, tag, i) && answer.value.value[i] == Some(searched.release);
          assert Listed(service, tag, page, i);
        }
        return searched;
      }
      if |answer.value.value| < PER_PAGE {
        assert Exhausted(service, tag, page);
        return Absent;
      }
      page := page + 1;
    }
    return LookupError;
  }

  /** The service shows `release`: it answers the lookup with it, or the listing is consulted and holds it. */
  ghost predicate Shows(service: Service, request: Request, release: Release) {
    || (Admitted(request) && service.tagged == Answer(Some(release)))
    || (ListingConsulted(service, request) && exists last, i ::
         Listed(service, request.tag, last, i) && service.page(last).value.value[i] == Some(release))
  }

  method LoadRelease(service: Service, request: Request) returns (r: Lookup)
    ensures r.Absent? <==>
      ListingConsulted(service, request) && exists last :: Exhausted(service, request.tag, last)
    ensures forall release :: r == Found(release) <==> Shows(service, request, release)
  {
    if request.token == "" || (request.actionsWriteToken && !request.trustedContext) {
      return LookupError;
    }
    if !request.repositoryValid || request.tag == "" {
      return LookupError;
    }
    match service.tagged
    case Answer(payload) =>
      return if payload.Some? then Found(payload.value) else LookupError;
    case Broken =>
      return LookupError;
    case HttpError(code) =>
      if code != 404 || (!request.actionsWriteToken && service.pushVisible != Answer(true)) {
        return LookupError;
      }
      r := SearchListing(service, request.tag);
  }

  datatype Verdict = IsAbsent | AlreadyExists(draft: bool) | Undecided

  /** It decides exactly when the listing is exhausted or the service shows a release with the tag. */
  method EnsureReleaseAbsent(service: Service, request: Request) returns (r: Verdict)
    ensures r.IsAbsent? <==>
      ListingConsulted(service, request) && exists last :: Exhausted(service, request.tag, last)
    ensures forall draft :: r == AlreadyExists(draft) <==>
      Shows(service, request, Release(Some(request.tag), Some(draft)))
  {
    var loaded := LoadRelease(service, request);
    match loaded
    case Absent => return IsAbsent;
    case LookupError => return Undecided;
    case Found(release) =>
      return if release.tagName != Some(request.tag) || release.draft.None? then Undecided
             else AlreadyExists(release.draft.value);
  }

  // ---------------------------------------------------------------- an honest service

  /** A release as the service holds it. */
  datatype Entry = Entry(tag: string, draft: bool)

  function Shown(e: Entry): Option<Release> {
    Some(Release(Some(e.tag), Some(e.draft)))
  }

  /** The items of page `k` of a listing. */
  function Slice(listing: seq<Entry>, k: int): seq<Entry>
    requires k >= 1
  {
    if (k - 1) * PER_PAGE >= |listing| then []
    else if k * PER_PAGE <= |listing| then listing[(k - 1) * PER_PAGE..k * PER_PAGE]
    else listing[(k - 1) * PER_PAGE..]
  }

  /** Pages are served from one listing, in order and unchanged. */
  ghost predicate Serves(service: Service, listing: seq<Entry>) {
    forall k :: k >= 1 ==>
      && service.page(k).Answer? && service.page(k).value.Some?
      && |service.page(k).value.value| == |Slice(listing, k)|
      && forall i :: 0 <= i < |Slice(listing, k)| ==> service.page(k).value.value[i] == Shown(Slice(listing, k)[i])
  }

  ghost predicate Carries(listing: seq<Entry>, tag: string) {
    exists i :: 0 <= i < |listing| && listing[i].tag == tag
  }

  /** An exhausted search saw every release. */
  lemma ExhaustedSawAll(service: Service, listing: seq<Entry>, tag: string, last: int)
    requires Serves(service, listing) && Exhausted(service, tag, last)
    ensures |listing| < PAGES * PER_PAGE && !Carries(listing, tag)
  {
    assert |Slice(listing, last)| < PER_PAGE;
    assert |listing| < last * PER_PAGE;
    forall i | 0 <= i < |listing| ensures listing[i].tag != tag {
      var k, j := i / PER_PAGE + 1, i % PER_PAGE;
      assert 1 <= k <= last && i == (k - 1) * PER_PAGE + j;
      assert Slice(listing, k)[j] == listing[i];
      assert service.page(k).value.value[j] == Shown(listing[i]);
      assert CleanPage(service.page(k), tag);
    }
  }

  /** A listing short enough and free of the tag is exhausted at its last page. */
  lemma ShortListingExhausted(service: Service, listing: seq<Entry>, tag: string)
    requires Serves(service, listing) && |listing| < PAGES * PER_PAGE && !Carries(listing, tag)
    ensures Exhausted(service, tag, |listing| / PER_PAGE + 1)
  {
    var last := |listing| / PER_PAGE + 1;
    forall k | 1 <= k <= last
      ensures CleanPage(service.page(k), tag)
      ensures k < last ==> |Slice(listing, k)| == PER_PAGE
    {
      assert |Slice(listing, k)| <= PER_PAGE;
      forall i | 0 <= i < |Slice(listing, k)| ensures Slice(listing, k)[i].tag != tag {
        assert Slice(listing, k)[i] == listing[(k - 1) * PER_PAGE + i];
      }
    }
    assert |Slice(listing, last)| == |listing| - (last - 1) * PER_PAGE;
  }

  /** Over any listing served in pages: absence is reported exactly when no release, draft or published, carries the
      tag and there are fewer than ten thousand; at ten thousand or more it never is. */
  lemma AbsenceExact(service: Service, listing: seq<Entry>, tag: string)
    requires Serves(service, listing)
    ensures (exists last :: Exhausted(service, tag, last)) <==> |listing| < PAGES * PER_PAGE && !Carries(listing, tag)
  {
    if last :| Exhausted(service, tag, last) {
      ExhaustedSawAll(service, listing, tag, last);
    }
    if |listing| < PAGES * PER_PAGE && !Carries(listing, tag) {
      ShortListingExhausted(service, listing, tag);
    }
  }

  /** The first release of the listing that carries the tag. */
  ghost predicate FirstTagged(listing: seq<Entry>, tag: string, n: int) {
    && 0 <= n < |listing| && listing[n].tag == tag
    && forall k :: 0 <= k < n ==> listing[k].tag != tag
  }

  lemma ListedIsFirst(service: Service, listing: seq<Entry>, tag: string, last: int, i: int)
    requires Serves(service, listing) && Listed(service, tag, last, i)
    ensures FirstTagged(listing, tag, (last - 1) * PER_PAGE + i)
    ensures service.page(last).value.value[i] == Shown(listing[(last - 1) * PER_PAGE + i])
  {
    assert Slice(listing, last)[i] == listing[(last - 1) * PER_PAGE + i];
    forall m | 0 <= m < (last - 1) * PER_PAGE + i ensures listing[m].tag != tag {
      var k, j := m / PER_PAGE + 1, m % PER_PAGE;
      assert 1 <= k <= last && m == (k - 1) * PER_PAGE + j;
      assert Slice(listing, k)[j] == listing[m];
      assert service.page(k).value.value[j] == Shown(listing[m]);
      assert k < last ==> CleanPage(service.page(k), tag);
    }
  }

  /** Up to the first release with the tag, pages show the listing; those before its own are full and clean. */
  lemma PageUpTo(service: Service, listing: seq<Entry>, tag: string, n: int, k: int)
    requires Serves(service, listing) && FirstTagged(listing, tag, n) && 1 <= k && (k - 1) * PER_PAGE <= n
    ensures ValidPage(service.page(k))
    ensures k * PER_PAGE <= n ==> CleanPage(service.page(k), tag) && |service.page(k).value.value| == PER_PAGE
    ensures forall i :: 0 <= i < PER_PAGE && (k - 1) * PER_PAGE + i <= n ==>
      i < |service.page(k).value.value| && service.page(k).value.value[i] == Shown(listing[(k - 1) * PER_PAGE + i])
  {
    var slice := Slice(listing, k);
    assert |slice| <= PER_PAGE;
    forall i | 0 <= i < PER_PAGE && (k - 1) * PER_PAGE + i <= n
      ensures i < |slice| && slice[i] == listing[(k - 1) * PER_PAGE + i]
    {
    }
  }

  lemma FirstIsListed(service: Service, listing: seq<Entry>, tag: string, n: int, last: int, i: int)
    requires Serves(service, listing) && FirstTagged(listing, tag, n)
    requires 1 <= last <= PAGES && 0 <= i < PER_PAGE && n == (last - 1) * PER_PAGE + i
    ensures Listed(service, tag, last, i) && service.page(last).value.value[i] == Shown(listing[n])
  {
    forall k | 1 <= k < last ensures CleanPage(service.page(k), tag) && |service.page(k).value.value| == PER_PAGE {
      PageUpTo(service, listing, tag, n, k);
    }
    PageUpTo(service, listing, tag, n, last);
    var items := service.page(last).value.value;
    forall m | 0 <= m < i ensures ValidItem(items[m]) && items[m].value.tagName != Some(tag) {
      assert items[m] == Shown(listing[(last - 1) * PER_PAGE + m]);
    }
    assert Hit(items, tag, i);
  }

  /** Over any listing served in pages: what is found is the first release with the tag, if it is among the first ten
      thousand. */
  lemma FoundExact(service: Service, listing: seq<Entry>, tag: string, release: Release)
    requires Serves(service, listing)
    ensures (exists last, i :: Listed(service, tag, last, i) && service.page(last).value.value[i] == Some(release))
      <==> exists n :: n < PAGES * PER_PAGE && FirstTagged(listing, tag, n) && Shown(listing[n]) == Some(release)
  {
    if last, i :| Listed(service, tag, last, i) && service.page(last).value.value[i] == Some(release) {
      ListedIsFirst(service, listing, tag, last, i);
    }
    if n :| n < PAGES * PER_PAGE && FirstTagged(listing, tag, n) && Shown(listing[n]) == Some(release) {
      FirstIsListed(service, listing, tag, n, n / PER_PAGE + 1, n % PER_PAGE);
    }
  }
}
