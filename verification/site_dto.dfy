/** `SiteDto`: one site of the master service, as the sync job consumes it.
    Every Java field is nullable (`Option`); the class computes a few
    derived views (`getSiteId`, `getStatus`, ...) from the stored fields. */
module SiteDto {
  import opened Wrappers
  import opened JavaLang

  datatype Site = Site(
    id: Option<Int32>,
    name: Option<string>,
    nameEnglish: Option<string>,
    nameGerman: Option<string>,
    locationCode: Option<string>,
    city: Option<string>,
    street: Option<string>,
    remark: Option<string>,
    active: Option<Int32>,
    logCreatedBy: Option<string>,
    logCreatedOn: Option<Time>,
    logUpdatedBy: Option<string>,
    logUpdatedOn: Option<Time>,
    clusterName: Option<string>,
    clusterId: Option<Int32>,
    sipDomain: Option<string>,
    routingPolicy: Option<string>,
    cmName: Option<string>,
    notes: Option<string>,
    ars: Option<string>,
    userStamp: Option<string>,
    timeStamp: Option<Time>,
    location: Option<string>)

  /** True when every field other than the four the short constructor takes is null. */
  predicate OnlyIdentitySet(d: Site) {
    && d.nameEnglish.None? && d.nameGerman.None? && d.locationCode.None?
    && d.city.None? && d.street.None? && d.remark.None? && d.active.None?
    && d.logCreatedBy.None? && d.logCreatedOn.None? && d.logUpdatedBy.None? && d.logUpdatedOn.None?
    && d.sipDomain.None? && d.routingPolicy.None? && d.cmName.None? && d.notes.None?
    && d.ars.None? && d.userStamp.None? && d.timeStamp.None? && d.location.None?
  }

  /** `new SiteDto()`: every field null. */
  function Empty(): (d: Site)
    ensures OnlyIdentitySet(d)
    ensures d.id.None? && d.name.None? && d.clusterName.None? && d.clusterId.None?
  {
    Site(None, None, None, None, None, None, None, None, None, None, None, None,
         None, None, None, None, None, None, None, None, None, None, None)
  }

  /** `new SiteDto(id, name, clusterName, clusterId)`: exactly those four
      fields are set; in particular the computed `location` stays null. */
  function Make(id: Option<Int32>, name: Option<string>, clusterName: Option<string>, clusterId: Option<Int32>): (d: Site)
    ensures d.id == id && d.name == name && d.clusterName == clusterName && d.clusterId == clusterId
    ensures OnlyIdentitySet(d)
  {
    Empty().(id := id, name := name, clusterName := clusterName, clusterId := clusterId)
  }

  /** `getSiteId()`: the id in decimal, or null. The text is canonical and
      reads back as the id, so it is the one text `String.valueOf` gives. */
  function SiteId(d: Site): (r: Option<string>)
    ensures r.None? <==> d.id.None?
    ensures r.Some? ==> CanonicalDecimal(r.value) && ParseInt(r.value) == Some(d.id.value as int)
  {
    match d.id
    case None => None
    case Some(n) => ParseIntToString(n); Some(IntToString(n))
  }

  const ActiveText := "ACTIVE"
  const InactiveText := "INACTIVE"

  /** `getStatus()`: null when `active` is null, "ACTIVE" when it is 1,
      "INACTIVE" for every other value. */
  function Status(d: Site): (r: Option<string>)
    ensures r.None? <==> d.active.None?
    ensures r == Some(ActiveText) <==> d.active == Some(1)
    ensures r == Some(InactiveText) <==> d.active.Some? && d.active.value != 1
  {
    match d.active
    case None => None
    case Some(a) => if a == 1 then Some(ActiveText) else Some(InactiveText)
  }

  /** `getSiteName()` and `getSiteCode()` read `name` and `locationCode`. */
  function SiteName(d: Site): Option<string> { d.name }

  function SiteCode(d: Site): Option<string> { d.locationCode }

  function Location(d: Site): Option<string> { d.location }

  function SetLocation(d: Site, location: Option<string>): Site {
    d.(location := location)
  }

  /** `getSiteId`, `getSiteName` and `getSiteCode` are views that lose
      nothing: two sites with the same views agree on id, name and code. */
  lemma ViewsDetermineIdentity(d: Site, e: Site)
    requires SiteId(d) == SiteId(e) && SiteName(d) == SiteName(e) && SiteCode(d) == SiteCode(e)
    ensures d.id == e.id && d.name == e.name && d.locationCode == e.locationCode
  {
    if d.id.Some? {
      IntToStringInjective(d.id.value, e.id.value);
    }
  }

  /** `setLocation(x)` then `getLocation()` gives back x, and no other field moves. */
  lemma SetThenGetLocation(d: Site, x: Option<string>)
    ensures Location(SetLocation(d, x)) == x
    ensures SetLocation(d, x).(location := d.location) == d
  {
  }
}
