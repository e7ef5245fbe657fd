/** The URL shortener: slug shape, the form's URL rule, unique-slug
    allocation against the KV store, the shorten action and the
    catch-all route that resolves a slug. */
module Shortener {
  import opened Wrappers
  import opened Text
  import opened Kv

  // ---------------------------------------------------------------------
  // Slug shape: 5 symbols of a 62-symbol alphabet
  // ---------------------------------------------------------------------

  /** The key alphabet "0123456789ABCDEFGHIJKLMNOPQRSTUVWXYZabcdefghijklmnopqrstuvwxyz",
      written as its three runs. */
  const Digits: string := "0123456789"
  const UpperCase: string := "ABCDEFGHIJKLMNOPQRSTUVWXYZ"
  const LowerCase: string := "abcdefghijklmnopqrstuvwxyz"
  const Alphabet: string := Digits + UpperCase + LowerCase
  const AlphabetSize: nat := 62
  const KeyLength: nat := 5

  predicate IsAlnum(c: char)
  {
    '0' <= c <= '9' || 'A' <= c <= 'Z' || 'a' <= c <= 'z'
  }

  /** A slug: exactly KeyLength characters, each of them in 0-9, A-Z or a-z. */
  predicate IsSlug(s: string)
  {
    |s| == KeyLength && forall i :: 0 <= i < |s| ==> IsAlnum(s[i])
  }

  lemma DigitsRun()
    ensures |Digits| == 10 && forall i :: 0 <= i < 10 ==> Digits[i] as int == '0' as int + i
  {
  }

  lemma UpperCaseRun()
    ensures |UpperCase| == 26 && forall i :: 0 <= i < 26 ==> UpperCase[i] as int == 'A' as int + i
  {
  }

  lemma LowerCaseRun()
    ensures |LowerCase| == 26 && forall i :: 0 <= i < 26 ==> LowerCase[i] as int == 'a' as int + i
  {
  }

  /** The alphabet is the ten digits, then A-Z, then a-z, in code order. */
  lemma AlphabetLayout()
    ensures |Alphabet| == AlphabetSize
    ensures forall i :: 0 <= i < 10 ==> Alphabet[i] as int == '0' as int + i
    ensures forall i :: 10 <= i < 36 ==> Alphabet[i] as int == 'A' as int + i - 10
    ensures forall i :: 36 <= i < 62 ==> Alphabet[i] as int == 'a' as int + i - 36
  {
    DigitsRun();
    UpperCaseRun();
    LowerCaseRun();
  }

  /** The alphabet has 62 distinct symbols (it is strictly ascending), all
      alphanumeric, and it holds every alphanumeric character. */
  lemma AlphabetIsAlnum()
    ensures |Alphabet| == AlphabetSize
    ensures forall i, j :: 0 <= i < j < |Alphabet| ==> Alphabet[i] < Alphabet[j]
    ensures forall i :: 0 <= i < |Alphabet| ==> IsAlnum(Alphabet[i])
    ensures forall c :: IsAlnum(c) ==> c in Alphabet
  {
    AlphabetLayout();
    forall c | IsAlnum(c) ensures c in Alphabet {
      assert Alphabet[SymbolIndex(c)] == c;
    }
  }

  /** The position of an alphanumeric character in the alphabet. */
  function SymbolIndex(c: char): (k: nat)
    requires IsAlnum(c)
    ensures k < AlphabetSize && Alphabet[k] == c
  {
    AlphabetLayout();
    var k := if c <= '9' then c as int - '0' as int
             else if c <= 'Z' then c as int - 'A' as int + 10
             else c as int - 'a' as int + 36;
    assert Alphabet[k] as int == c as int;
    k
  }

  /** One draw of the random generator: KeyLength positions in the alphabet. */
  type Draw = d: seq<nat> | |d| == KeyLength && forall i :: 0 <= i < |d| ==> d[i] < AlphabetSize
    witness [0, 0, 0, 0, 0]

  /** The candidate key a draw spells out. */
  function Slug(d: Draw): (key: string)
    ensures IsSlug(key)
  {
    AlphabetIsAlnum();
    seq(KeyLength, i requires 0 <= i < KeyLength => Alphabet[d[i]])
  }

  /** Distinct draws give distinct keys, and every slug is some draw's key:
      the generator ranges over exactly the 62^5 slugs. */
  lemma SlugIsBijective(d1: Draw, d2: Draw, s: string)
    ensures Slug(d1) == Slug(d2) ==> d1 == d2
    ensures IsSlug(s) ==> exists d: Draw :: Slug(d) == s
  {
    AlphabetIsAlnum();
    if Slug(d1) == Slug(d2) {
      forall i | 0 <= i < KeyLength ensures d1[i] == d2[i] {
        assert Slug(d1)[i] == Slug(d2)[i];
        assert Alphabet[d1[i]] == Alphabet[d2[i]];
      }
    }
    if IsSlug(s) {
      var d: Draw := seq(KeyLength, i requires 0 <= i < KeyLength => SymbolIndex(s[i]));
      assert Slug(d) == s;
    }
  }

  // ---------------------------------------------------------------------
  // The form schema: `url` must be a URL and start with https://
  // ---------------------------------------------------------------------

  const HttpsPrefix: string := "https://"

  /** The problems the form schema reports on the `url` field. */
  datatype UrlIssue = Required | InvalidUrl | NotHttps

  function IssueMessage(issue: UrlIssue): string
  {
    match issue
    case Required => "Required"
    case InvalidUrl => "Invalid url"
    case NotHttps => "URL must start with https://"
  }

  /** Validates the `url` field. `isUrl` is the URL-syntax check of the
      schema library; the https rule runs even when that check fails. */
  function UrlIssues(url: Option<string>, isUrl: string -> bool): (issues: seq<UrlIssue>)
    ensures issues == [] <==> url.Some? && isUrl(url.value) && StartsWith(url.value, HttpsPrefix)
    ensures NotHttps in issues <==> url.Some? && !StartsWith(url.value, HttpsPrefix)
    ensures Required in issues <==> url.None?
    ensures InvalidUrl in issues <==> url.Some? && !isUrl(url.value)
  {
    match url
    case None => [Required]
    case Some(u) =>
      (if isUrl(u) then [] else [InvalidUrl]) + (if StartsWith(u, HttpsPrefix) then [] else [NotHttps])
  }

  /** A plain-http address is refused with the https message, whatever the
      URL-syntax check says. */
  lemma HttpUrlRefused(isUrl: string -> bool)
    ensures NotHttps in UrlIssues(Some("http://example.com"), isUrl)
    ensures IssueMessage(NotHttps) == "URL must start with https://"
  {
    assert !StartsWith("http://example.com", HttpsPrefix) by {
      assert "http://example.com"[4] != HttpsPrefix[4];
    }
  }

  // ---------------------------------------------------------------------
  // Unique-key allocation
  // ---------------------------------------------------------------------

  /** JavaScript truthiness of what `get` yields: a missing value and an
      empty string are both falsy. */
  predicate Truthy(v: Option<string>)
  {
    v.Some? && v.value != ""
  }

  /** Draws candidates in turn and returns the first whose lookup is falsy;
      a truthy candidate is discarded and the next one is tried. The random
      generator is the finite list `draws`; when it runs out the result is
      None. The method reads the store and has no frame to write it. */
  method GetUniqueKey(kv: KVStore, draws: seq<Draw>) returns (key: Option<string>)
    ensures key.Some? ==> IsSlug(key.value) && !Truthy(Lookup(kv.ns.entries, key.value))
    ensures key.Some? ==> exists k :: 0 <= k < |draws| && key.value == Slug(draws[k]) &&
                             forall j :: 0 <= j < k ==> Truthy(Lookup(kv.ns.entries, Slug(draws[j])))
    ensures key.None? <==> forall j :: 0 <= j < |draws| ==> Truthy(Lookup(kv.ns.entries, Slug(draws[j])))
  {
    var i := 0;
    while i < |draws|
      invariant 0 <= i <= |draws|
      invariant forall j :: 0 <= j < i ==> Truthy(Lookup(kv.ns.entries, Slug(draws[j])))
    {
      var candidate := Slug(draws[i]);
      var existing := kv.Get(candidate);
      if !Truthy(existing) {
        return Some(candidate);
      }
      i := i + 1;
    }
    return None;
  }

  /** Every stored value is an https URL (the only values the action writes). */
  ghost predicate AllHttps(entries: map<string, string>)
  {
    forall k :: k in entries ==> StartsWith(entries[k], HttpsPrefix)
  }

  /** In a store of https URLs a key's lookup is truthy exactly when the key
      is present, so a falsy candidate is genuinely absent. */
  lemma TruthyIsPresent(entries: map<string, string>, key: string)
    requires AllHttps(entries)
    ensures Truthy(Lookup(entries, key)) <==> key in entries
  {
    if key in entries {
      assert StartsWith(entries[key], HttpsPrefix);
      assert |entries[key]| >= |HttpsPrefix|;
    }
  }

  // ---------------------------------------------------------------------
  // Building the short URL
  // ---------------------------------------------------------------------

  /** `env.BASE_URL || domainUrl`: an unset or empty setting falls back to
      the request's domain URL. */
  function BaseUrl(setting: Option<string>, domainUrl: string): (base: string)
    ensures base == domainUrl || (setting.Some? && base == setting.value && base != "")
    ensures setting.Some? && setting.value != "" ==> base == setting.value
  {
    if setting.Some? && setting.value != "" then setting.value else domainUrl
  }

  /** `${baseUrl.split('://')[1]}/${key}`: the piece after the first "://"
      (up to a second one, if any), a slash, and the key. With no "://" the
      missing piece is rendered as "undefined". */
  function ShortUrl(baseUrl: string, key: string): (url: string)
    ensures |url| > |key| && url[|url| - |key| - 1..] == "/" + key
  {
    var parts := Split(baseUrl, "://");
    var host := if |parts| >= 2 then parts[1] else "undefined";
    assert (host + "/" + key)[|host|..] == "/" + key;
    host + "/" + key
  }

  /** For a base URL `scheme://host` the short URL is `host/key`. */
  lemma ShortUrlOfOrigin(scheme: string, host: string, key: string)
    requires ':' !in scheme
    requires !Contains(host, "://")
    ensures ShortUrl(scheme + "://" + host, key) == host + "/" + key
  {
    var s := scheme + "://" + host;
    forall j | 0 <= j < |scheme| ensures !OccursAt(s, "://", j) {
      assert s[j] == scheme[j];
    }
    SplitAfterFirst(scheme, "://", host);
  }

  /** A base URL without "://" gives "undefined/key". */
  lemma ShortUrlWithoutScheme(baseUrl: string, key: string)
    requires !Contains(baseUrl, "://")
    ensures ShortUrl(baseUrl, key) == "undefined/" + key
  {
  }

  // ---------------------------------------------------------------------
  // The shorten action
  // ---------------------------------------------------------------------

  /** The submitted form: conform's intent and the `url` field (absent when
      the field is missing or empty). */
  datatype ShortenForm = ShortenForm(intent: string, url: Option<string>)

  datatype ShortenResponse =
    | Idle
    | Invalid(issues: seq<UrlIssue>)
    | Shortened(shortUrl: string)
    | Failed

  function Status(r: ShortenResponse): (code: nat)
    ensures code == 200 <==> r.Idle? || r.Shortened?
    ensures code == 400 <==> r.Invalid?
    ensures code == 500 <==> r.Failed?
  {
    match r
    case Idle => 200
    case Invalid(_) => 400
    case Shortened(_) => 200
    case Failed => 500
  }

  function ErrorText(r: ShortenResponse): (text: Option<string>)
    ensures text.Some? <==> Status(r) >= 400
    ensures r.Invalid? ==> text == Some("Invalid submission")
    ensures r.Failed? ==> text == Some("Something went wrong")
  {
    match r
    case Invalid(_) => Some("Invalid submission")
    case Failed => Some("Something went wrong")
    case _ => None
  }

  /** The store is unchanged unless the shortening succeeded; on success
      exactly one key was added, it was falsy before, and it maps to the
      submitted URL. `draws` stands for the random generator and `putFails`
      for a failing write to the namespace. */
  method Shorten(namespace: Namespace, form: ShortenForm, isUrl: string -> bool,
                 baseUrlSetting: Option<string>, domainUrl: string,
                 draws: seq<Draw>, putFails: bool)
    returns (resp: ShortenResponse)
    modifies namespace
    ensures form.intent != "submit" ==> resp == Idle
    ensures resp.Idle? <==> form.intent != "submit"
    ensures resp.Invalid? <==> form.intent == "submit" && UrlIssues(form.url, isUrl) != []
    ensures form.intent == "submit" && UrlIssues(form.url, isUrl) != [] ==>
              resp == Invalid(UrlIssues(form.url, isUrl))
    ensures resp.Failed? <==>
              form.intent == "submit" && UrlIssues(form.url, isUrl) == [] &&
              (putFails || forall j :: 0 <= j < |draws| ==> Truthy(Lookup(old(namespace.entries), Slug(draws[j]))))
    ensures !resp.Shortened? ==> namespace.entries == old(namespace.entries)
    ensures resp.Shortened? ==> form.intent == "submit" && UrlIssues(form.url, isUrl) == []
    ensures resp.Shortened? ==>
              form.url.Some? &&
              exists key :: IsSlug(key) && !Truthy(Lookup(old(namespace.entries), key)) &&
                            namespace.entries == old(namespace.entries)[key := form.url.value] &&
                            resp.shortUrl == ShortUrl(BaseUrl(baseUrlSetting, domainUrl), key) &&
                            exists k :: 0 <= k < |draws| && key == Slug(draws[k]) &&
                                        forall j :: 0 <= j < k ==> Truthy(Lookup(old(namespace.entries), Slug(draws[j])))
    ensures AllHttps(old(namespace.entries)) ==> AllHttps(namespace.entries)
  {
    if form.intent != "submit" {
      return Idle;
    }
    var issues := UrlIssues(form.url, isUrl);
    if issues != [] {
      return Invalid(issues);
    }
    var url := form.url.value;
    var kv := new KVStore(namespace);
    var key := GetUniqueKey(kv, draws);
    if key.None? || putFails {
      return Failed;
    }
    kv.Put(key.value, url);
    var base := BaseUrl(baseUrlSetting, domainUrl);
    resp := Shortened(ShortUrl(base, key.value));
  }

  // ---------------------------------------------------------------------
  // The catch-all route: slug -> permanent redirect or 404
  // ---------------------------------------------------------------------

  datatype Resolution = NotFound | Redirect(target: string)

  function ResolutionStatus(r: Resolution): (code: nat)
    ensures code == 301 <==> r.Redirect?
    ensures code == 404 <==> r.NotFound?
  {
    if r.Redirect? then 301 else 404
  }

  /** `pathname.slice(1)` */
  function DropLeadingChar(pathname: string): (key: string)
    ensures pathname != [] ==> [pathname[0]] + key == pathname
    ensures pathname == [] ==> key == []
  {
    if pathname == [] then [] else pathname[1..]
  }

  /** The key is the path without its leading slash; a falsy lookup is a
      404, anything else redirects to the stored value. Nothing is written. */
  method Resolve(namespace: Namespace, pathname: string) returns (r: Resolution)
    ensures r.Redirect? <==> Truthy(Lookup(namespace.entries, DropLeadingChar(pathname)))
    ensures r.Redirect? ==> r.target == namespace.entries[DropLeadingChar(pathname)]
  {
    var key := DropLeadingChar(pathname);
    var kv := new KVStore(namespace);
    var target := kv.Get(key);
    if !Truthy(target) {
      return NotFound;
    }
    return Redirect(target.value);
  }

  /** Round trip: the key read back off the end of a successful short URL,
      visited as "/key", redirects to the submitted URL. */
  method ShortenThenResolve(namespace: Namespace, form: ShortenForm, isUrl: string -> bool,
                            baseUrlSetting: Option<string>, domainUrl: string,
                            draws: seq<Draw>, putFails: bool)
    returns (resp: ShortenResponse, visit: Resolution)
    modifies namespace
    ensures form.intent == "submit" && UrlIssues(form.url, isUrl) == [] && !putFails &&
            (exists j :: 0 <= j < |draws| && !Truthy(Lookup(old(namespace.entries), Slug(draws[j])))) ==>
              resp.Shortened?
    ensures resp.Shortened? ==> form.url.Some? && visit == Redirect(form.url.value)
  {
    resp := Shorten(namespace, form, isUrl, baseUrlSetting, domainUrl, draws, putFails);
    if resp.Shortened? {
      var u := resp.shortUrl;
      var key := u[|u| - KeyLength..];
      ghost var k :| IsSlug(k) && namespace.entries == old(namespace.entries)[k := form.url.value] &&
                     u == ShortUrl(BaseUrl(baseUrlSetting, domainUrl), k);
      assert |k| == KeyLength;
      var base := BaseUrl(baseUrlSetting, domainUrl);
      assert ShortUrl(base, k)[|ShortUrl(base, k)| - |k| - 1..] == "/" + k;
      assert u[|u| - |k| - 1..] == "/" + k;
      assert key == u[|u| - |k| - 1..][1..];
      assert StartsWith(form.url.value, HttpsPrefix);
      visit := Resolve(namespace, "/" + key);
    } else {
      visit := NotFound;
    }
  }
}
