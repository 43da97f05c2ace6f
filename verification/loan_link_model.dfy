/** The LoanLinkVerification schema: the curated allow/deny list of lending
    domains. A record holds a trimmed, unique domain, a status that is
    "Whitelisted" or "Blacklisted", the institution's name and free notes. */
module LoanLinkModel {
  import opened Wrappers
  import opened Text
  import opened Mongoose

  datatype LinkStatus = Whitelisted | Blacklisted

  function StatusName(s: LinkStatus): string
  {
    match s
    case Whitelisted => "Whitelisted"
    case Blacklisted => "Blacklisted"
  }

  /** The `enum` check on `status`. */
  function ParseStatus(s: string): (r: Option<LinkStatus>)
    ensures r.Some? <==> s == "Whitelisted" || s == "Blacklisted"
    ensures r.Some? ==> StatusName(r.value) == s
  {
    if s == "Whitelisted" then Some(Whitelisted)
    else if s == "Blacklisted" then Some(Blacklisted)
    else None
  }

  lemma StatusRoundTrip(s: LinkStatus)
    ensures ParseStatus(StatusName(s)) == Some(s)
  {
  }

  datatype LoanLinkRecord = LoanLinkRecord(
    domain: string,
    status: LinkStatus,
    institutionName: string,
    notes: string)

  datatype LoanLinkFields = LoanLinkFields(
    domain: Option<string>,
    status: Option<string>,
    institutionName: Option<string>,
    notes: Option<string>)

  datatype SaveError = Invalid(paths: set<string>) | DuplicateKey(domain: string)

  /** The paths of `f` that fail validation. */
  function LinkFailures(f: LoanLinkFields): (r: set<string>)
    ensures "domain" in r <==> !RequiredString(TrimmedPath(f.domain))
    ensures "status" in r <==> f.status.None? || ParseStatus(f.status.value).None?
    ensures "institutionName" in r <==> !RequiredString(f.institutionName)
    ensures r <= {"domain", "status", "institutionName"}
  {
    (if RequiredString(TrimmedPath(f.domain)) then {} else {"domain"})
    + (if f.status.Some? && ParseStatus(f.status.value).Some? then {} else {"status"})
    + (if RequiredString(f.institutionName) then {} else {"institutionName"})
  }

  /** `FindByDomain(records, d)`: `findOne({ domain: d })`, an exact match on
      the stored domain. */
  function FindByDomain(records: seq<LoanLinkRecord>, d: string): (r: Option<LoanLinkRecord>)
    ensures r.Some? ==> r.value in records && r.value.domain == d
    ensures r.None? <==> forall x :: x in records ==> x.domain != d
  {
    if records == [] then None
    else if records[0].domain == d then Some(records[0])
    else FindByDomain(records[1..], d)
  }

  /** The unique index on `domain`. */
  predicate DomainsUnique(records: seq<LoanLinkRecord>)
  {
    forall i, j :: 0 <= i < j < |records| ==> records[i].domain != records[j].domain
  }

  /** With unique domains, the record found for a domain is the only one. */
  lemma FoundIsOnly(records: seq<LoanLinkRecord>, d: string, x: LoanLinkRecord)
    requires DomainsUnique(records) && x in records && x.domain == d
    ensures FindByDomain(records, d) == Some(x)
  {
    var y := FindByDomain(records, d).value;
    var i :| 0 <= i < |records| && records[i] == x;
    var j :| 0 <= j < |records| && records[j] == y;
    assert i == j;
  }

  /** Creating a record: validation, the schema defaults and setters, then the
      unique index. On success the record is appended and domains stay unique. */
  function CreateRecord(records: seq<LoanLinkRecord>, f: LoanLinkFields)
    : (r: (Result<LoanLinkRecord, SaveError>, seq<LoanLinkRecord>))
    ensures r.0.Err? ==> r.1 == records
    ensures r.0.Ok? <==> LinkFailures(f) == {} && FindByDomain(records, Trim(f.domain.value)).None?
    ensures r.0.Ok? ==> && r.1 == records + [r.0.value]
                        && r.0.value.domain == Trim(f.domain.value) && r.0.value.domain != ""
                        && StatusName(r.0.value.status) == f.status.value
                        && r.0.value.institutionName == f.institutionName.value
                        && r.0.value.notes == f.notes.GetOr("")
    ensures DomainsUnique(records) ==> DomainsUnique(r.1)
  {
    var failures := LinkFailures(f);
    if failures != {} then (Err(Invalid(failures)), records)
    else
      var d := Trim(f.domain.value);
      if FindByDomain(records, d).Some? then (Err(DuplicateKey(d)), records)
      else
        var rec := LoanLinkRecord(d, ParseStatus(f.status.value).value, f.institutionName.value, f.notes.GetOr(""));
        (Ok(rec), records + [rec])
  }
}
