/** The reshaping inside GET /api/recommendations (backend/server.js):
    each item of the remote feed becomes one listing. The HTTP fetch
    itself is outside the model; its outcome is the `feed` argument, with
    `None` for every way the fetch or the reshaping can throw. */
module Discovery {
  import opened Wrappers

  /** One entry of the feed's `jobs` array; `None` is a missing field. */
  datatype FeedItem = FeedItem(
    companyName: Option<string>,
    jobTitle: Option<string>,
    jobGeo: Option<string>,
    jobType: Option<string>,
    url: Option<string>,
    pubDate: Option<string>,
    companyLogo: Option<string>)

  /** One element of the route's JSON reply. */
  datatype Listing = Listing(
    id: nat,
    company: Option<string>,
    position: Option<string>,
    location: string,
    tags: seq<string>,
    url: Option<string>,
    date: Option<string>,
    logo: Option<string>)

  const DefaultLocation: string := "Remote"
  const DefaultTag: string := "Dev"

  /** A string field JavaScript treats as true: present and not empty. */
  predicate Truthy(v: Option<string>) {
    v.Some? && v.value != ""
  }

  /** The arrow function given to `map`, for the item at `index`. */
  function ToListing(index: nat, item: FeedItem): (l: Listing)
    ensures l.id == index
    ensures l.location != "" && l.location == if Truthy(item.jobGeo) then item.jobGeo.value else DefaultLocation
    ensures |l.tags| == 1 && l.tags[0] != ""
    ensures l.tags[0] == if Truthy(item.jobType) then item.jobType.value else DefaultTag
  {
    Listing(
      id := index,
      company := item.companyName,
      position := item.jobTitle,
      location := if Truthy(item.jobGeo) then item.jobGeo.value else DefaultLocation,
      tags := if Truthy(item.jobType) then [item.jobType.value] else [DefaultTag],
      url := item.url,
      date := item.pubDate,
      logo := item.companyLogo)
  }

  /** GET /api/recommendations: the mapped feed, or `[]` when anything
      failed. */
  function Recommendations(feed: Option<seq<FeedItem>>): (r: seq<Listing>)
    ensures feed.None? ==> r == []
    ensures feed.Some? ==> |r| == |feed.value|
    ensures feed.Some? ==> forall i :: 0 <= i < |r| ==> r[i] == ToListing(i, feed.value[i])
  {
    match feed
    case None => []
    case Some(items) => seq(|items|, i requires 0 <= i < |items| => ToListing(i, items[i]))
  }

  /** Every listing the route returns has a distinct `id` equal to its
      position, a non-empty location, exactly one non-empty tag, and the
      company, title, link, date and logo of the feed item it came from. */
  lemma RecommendationsShape(feed: Option<seq<FeedItem>>)
    ensures var r := Recommendations(feed);
            forall i :: 0 <= i < |r| ==>
              r[i].id == i && r[i].location != "" && |r[i].tags| == 1 && r[i].tags[0] != "" &&
              r[i].company == feed.value[i].companyName && r[i].position == feed.value[i].jobTitle &&
              r[i].url == feed.value[i].url && r[i].date == feed.value[i].pubDate &&
              r[i].logo == feed.value[i].companyLogo
    ensures var r := Recommendations(feed);
            forall i, j :: 0 <= i < j < |r| ==> r[i].id != r[j].id
  {
  }
}
