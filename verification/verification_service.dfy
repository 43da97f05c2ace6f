/** The tiered link verifier (`verifyLoanLink` of verification.service.js):
    normalise the host name, look the domain up in the curated list, and
    otherwise return whatever the AI's JSON answer parses to. Any failure on
    the way — an unparsable URL, an unavailable store, an AI error, unparsable
    AI text — gives one fixed "Suspicious" verdict; the function never throws.

    The URL parser, the store, the AI call and `JSON.parse` are parameters:
    `hostOf` gives the URL's host name or `None` when `new URL` throws; the AI
    answer is the `advice` text or an error; `parseJson` gives the parsed value
    or `None` when it throws. `J` is the type of parsed JSON values, which are
    returned as they are. */
module VerificationService {
  import opened Wrappers
  import opened Text
  import opened LoanLinkModel

  datatype Verdict = Verdict(status: string, riskScore: int, reason: string)

  /** The outcome: a verdict built here, or the AI's parsed answer untouched. */
  datatype Assessment<J> = Built(verdict: Verdict) | FromAi(answer: J)

  /** The curated list, or the failure a query raises. */
  datatype Store = Available(records: seq<LoanLinkRecord>) | Unavailable

  const FallbackVerdict: Verdict :=
    Verdict("Suspicious", 75, "Could not fully verify the link due to an internal error. Please proceed with caution.")

  /** `hostname.replace('www.', '')`: the FIRST occurrence of "www." anywhere
      in the host is removed, not only a leading one, and only that one. */
  function NormalizeDomain(host: string): (d: string)
    ensures !Contains(host, "www.") ==> d == host
    ensures forall i :: OccursAt(host, "www.", i) && (forall j :: 0 <= j < i ==> !OccursAt(host, "www.", j))
                        ==> d == host[..i] + host[i + 4..]
  {
    ReplaceFirst(host, "www.", "")
  }

  /** The removal is not anchored at the start of the host... */
  lemma NormalizeDomainUnanchored()
    ensures NormalizeDomain("m.www.in") == "m.in"
  {
    var h := "m.www.in";
    var p := "www.";
    assert IndexOfFrom(h, p, 2) == Some(2) by { assert h[2..6] == p; }
    assert IndexOfFrom(h, p, 1) == IndexOfFrom(h, p, 2) by { assert h[1] != 'w'; }
    assert IndexOfFrom(h, p, 0) == IndexOfFrom(h, p, 1) by { assert h[0] != 'w'; }
    assert ReplaceFirst(h, p, "") == h[..2] + "" + h[6..];
    assert h[..2] + "" + h[6..] == "m.in";
  }

  /** ...and not global: a second "www." stays. */
  lemma NormalizeDomainFirstOnly()
    ensures NormalizeDomain("www.www.bank.in") == "www.bank.in"
  {
    assert OccursAt("www.www.bank.in", "www.", 0);
  }

  /** The verdict for a domain on the curated list. */
  function Tier1Verdict(rec: LoanLinkRecord): (v: Verdict)
    ensures rec.status == Whitelisted ==> v.status == "Verified" && v.riskScore == 0
    ensures rec.status == Blacklisted ==> v.status == "Blacklisted" && v.riskScore == 100
    ensures v.reason == "This domain is on our internal " + StatusName(rec.status)
                        + " list as belonging to " + rec.institutionName + "."
  {
    var whitelisted := StatusName(rec.status) == "Whitelisted";
    Verdict(if whitelisted then "Verified" else "Blacklisted",
            if whitelisted then 0 else 100,
            "This domain is on our internal " + StatusName(rec.status)
            + " list as belonging to " + rec.institutionName + ".")
  }

  function VerifyLoanLink<J>(url: string, hostOf: string -> Option<string>, store: Store,
                             aiAdvice: Result<string, string>, parseJson: string -> Option<J>)
    : (r: Assessment<J>)
    ensures hostOf(url).None? || store.Unavailable? ==> r == Built(FallbackVerdict)
    ensures hostOf(url).Some? && store.Available? ==>
      match FindByDomain(store.records, NormalizeDomain(hostOf(url).value))
      case Some(rec) => r == Built(Tier1Verdict(rec))
      case None =>
        && (aiAdvice.Err? ==> r == Built(FallbackVerdict))
        && (aiAdvice.Ok? ==> r == (match parseJson(aiAdvice.value)
                                   case None => Built(FallbackVerdict)
                                   case Some(j) => FromAi(j)))
  {
    match hostOf(url)
    case None => Built(FallbackVerdict)
    case Some(host) =>
      match store
      case Unavailable => Built(FallbackVerdict)
      case Available(records) =>
        match FindByDomain(records, NormalizeDomain(host))
        case Some(rec) => Built(Tier1Verdict(rec))
        case None =>
          match aiAdvice
          case Err(_) => Built(FallbackVerdict)
          case Ok(text) =>
            match parseJson(text)
            case None => Built(FallbackVerdict)
            case Some(j) => FromAi(j)
  }

  /** A listed domain is answered before the AI is consulted: the result does
      not depend on the AI's answer or on how it would parse. */
  lemma ListedIgnoresAi<J>(url: string, hostOf: string -> Option<string>, records: seq<LoanLinkRecord>,
                           ai1: Result<string, string>, parse1: string -> Option<J>,
                           ai2: Result<string, string>, parse2: string -> Option<J>)
    requires hostOf(url).Some?
    requires FindByDomain(records, NormalizeDomain(hostOf(url).value)).Some?
    ensures VerifyLoanLink(url, hostOf, Available(records), ai1, parse1)
         == VerifyLoanLink(url, hostOf, Available(records), ai2, parse2)
  {
  }

  /** Whatever happens, the answer is a listed verdict, the AI's parsed answer,
      or the fallback: there is no error outcome. */
  lemma NeverFails<J>(url: string, hostOf: string -> Option<string>, store: Store,
                      aiAdvice: Result<string, string>, parseJson: string -> Option<J>)
    ensures var r := VerifyLoanLink(url, hostOf, store, aiAdvice, parseJson);
            || r == Built(FallbackVerdict)
            || r.FromAi?
            || (r.Built? && r.verdict.status in {"Verified", "Blacklisted"}
                && r.verdict.riskScore in {0, 100})
  {
  }
}
