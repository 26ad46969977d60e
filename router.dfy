/** The resource router attached to the shared browser context: for every
    outgoing request it decides, from the lower-cased URL and Playwright's
    resource type, whether the request goes through or is aborted. */
module ResourceRouter {
  import opened Strings

  datatype Verdict = Continue | Abort

  /** URL fragments of the captcha vendor; a request to any of them always goes through. */
  const VendorDomains: seq<string> :=
    ["recaptcha", "google.com", "googleapis.com", "gstatic.com", "googleusercontent.com", "google-analytics.com"]

  /** Resource types the page needs to run. */
  const AllowedTypes: set<string> := {"document", "script", "xhr", "fetch", "websocket"}

  /** Resource types that only cost load time. */
  const BlockedTypes: set<string> := {"image", "stylesheet", "font", "media"}

  /** The narrower allow-list applied to the "other" resource type. */
  const OtherTypeDomains: seq<string> := ["google", "labs.google"]

  /** The router's verdict, checking the rules in the source's order. It
      fails open: only a non-vendor request of a blocked type or of type
      "other" is ever aborted. */
  function Route(url: string, resourceType: string): (r: Verdict)
    ensures r == Abort ==> !ContainsAny(Lower(url), VendorDomains)
    ensures r == Abort ==> resourceType in BlockedTypes || resourceType == "other"
    ensures r == Abort && resourceType == "other" ==> !ContainsAny(Lower(url), OtherTypeDomains)
  {
    var u := Lower(url);
    if ContainsAny(u, VendorDomains) then Continue
    else if resourceType in AllowedTypes then Continue
    else if resourceType in BlockedTypes then Abort
    else if resourceType == "other" then
      (if ContainsAny(u, OtherTypeDomains) then Continue else Abort)
    else Continue
  }

  /** Vendor precedence: a vendor URL goes through whatever its resource type. */
  lemma VendorRequestsContinue(url: string, resourceType: string)
    requires ContainsAny(Lower(url), VendorDomains)
    ensures Route(url, resourceType) == Continue
  {
  }

  /** The "labs.google" entry of the second allow-list is redundant: any URL
      that contains it also contains "google". */
  lemma OtherTypeListIsJustGoogle(u: string)
    ensures ContainsAny(u, OtherTypeDomains) <==> Contains(u, "google")
  {
    if Contains(u, "labs.google") {
      assert "google" == "labs.google"[5..];
      assert Contains("labs.google"[1..][1..][1..][1..][1..], "google");
      assert Contains("labs.google", "google");
      ContainsTransitive(u, "labs.google", "google");
    }
    if Contains(u, "google") {
      assert Contains(u, OtherTypeDomains[0]);
    }
  }

  /** The rules for a URL outside the vendor domains, one verdict per type class. */
  lemma NonVendorRules(url: string, resourceType: string)
    requires !ContainsAny(Lower(url), VendorDomains)
    ensures resourceType in AllowedTypes ==> Route(url, resourceType) == Continue
    ensures resourceType in BlockedTypes ==> Route(url, resourceType) == Abort
    ensures resourceType == "other" ==>
              (Route(url, resourceType) == Continue <==> Contains(Lower(url), "google"))
    ensures resourceType !in AllowedTypes && resourceType !in BlockedTypes && resourceType != "other" ==>
              Route(url, resourceType) == Continue
  {
    OtherTypeListIsJustGoogle(Lower(url));
  }

  /** Exactly the requests the router aborts: non-vendor URLs whose type is a
      blocked one, or of type "other" without "google" in the URL. Every other
      request, including one of a type the router does not know, goes through. */
  lemma AbortIff(url: string, resourceType: string)
    ensures Route(url, resourceType) == Abort <==>
              !ContainsAny(Lower(url), VendorDomains) &&
              (resourceType in BlockedTypes ||
               (resourceType == "other" && !Contains(Lower(url), "google")))
  {
    OtherTypeListIsJustGoogle(Lower(url));
  }

  /** The verdict depends on the URL only through its lower-cased form. */
  lemma RouteIgnoresCase(url: string, resourceType: string)
    ensures Route(url, resourceType) == Route(Lower(url), resourceType)
  {
    LowerIdempotent(url);
  }
}
