/** The Bilibili video source (youngoor/src/source/bilibili.rs): its state, its
    default value, its display name and its URL recogniser `valid`. */
module Bilibili {
  import opened Wrappers
  import opened Ascii
  import opened Urls

  /** `BilibiliSource`: the session cookie, absent until one is set. The HTTP
      client the struct also holds is not modelled. */
  datatype BilibiliSource = BilibiliSource(cookie: Option<string>)

  /** `Default for BilibiliSource`: a source without a cookie. */
  function Default(): (s: BilibiliSource)
    ensures s.cookie.None?
  {
    BilibiliSource(None)
  }

  newtype int32 = x: int | -0x8000_0000 <= x < 0x8000_0000
  newtype uint8 = x: int | 0 <= x < 0x100

  /** The platform's reply envelope: a status code, a message and an optional
      payload. Nothing in the source interprets it yet. */
  datatype Response<T> = Response(code: int32, message: string, ttl: int32, data: Option<T>)

  /** One part (P) of a video: its stream key `cid`, part number, origin,
      duration, off-site id, external link and frame size. */
  datatype PInfo = PInfo(cid: int32, page: int32, from: string, duration: int32, vid: string, weblink: string, dimension: Dimension)

  /** Frame size; `rotate` is 0 for normal and 1 when width and height are
      swapped. */
  datatype Dimension = Dimension(width: int32, height: int32, rotate: uint8)

  /** What `pretty_name` returns, whatever the source's state. */
  const Name: string := "bilibili"

  const WwwHost: string := "www.bilibili.com"
  const BareHost: string := "bilibili.com"
  const VideoPrefix: string := "/video/"
  const BangumiPrefix: string := "/bangumi/"

  /** The host test of `valid`. */
  predicate IsHost(host: string)
    ensures IsHost(host) ==> |host| == |WwwHost| || |host| == |BareHost|
  {
    EqIgnoreAsciiCase(host, WwwHost) || EqIgnoreAsciiCase(host, BareHost)
  }

  /** The path test of `valid`: the folded path begins with a video or a
      bangumi (series) segment, slash included. */
  predicate IsPath(path: string)
    ensures IsPath(path) ==> |path| >= |VideoPrefix|
  {
    var p := ToAsciiLowercase(path);
    StartsWith(p, VideoPrefix) || StartsWith(p, BangumiPrefix)
  }

  /** `BilibiliSource::valid`. It reads none of the source's fields, so the
      model takes only the URL. */
  predicate Valid(url: Url)
    ensures Valid(url) ==> url.host.Some?
  {
    match url.host
    case None => false
    case Some(host) => IsHost(host) && IsPath(url.path)
  }

  lemma HostsFolded()
    ensures IsFolded(WwwHost) && IsFolded(BareHost)
    ensures IsFolded(VideoPrefix) && IsFolded(BangumiPrefix)
  {
  }

  /** Reference form of the host test: the folded host is one of the two
      accepted names, written in lower case. */
  lemma HostByFolding(host: string)
    ensures IsHost(host) <==>
      ToAsciiLowercase(host) == WwwHost || ToAsciiLowercase(host) == BareHost
  {
    HostsFolded();
    LowercaseFolded(WwwHost);
    LowercaseFolded(BareHost);
    EqIgnoreCaseIffLowerEq(host, WwwHost);
    EqIgnoreCaseIffLowerEq(host, BareHost);
  }

  /** The host test accepts the bare domain and the domain behind a `www.`
      label, each in any mix of case, and nothing else. */
  lemma HostWwwOptional(host: string)
    ensures IsHost(host) <==>
      EqIgnoreAsciiCase(host, BareHost) ||
      (|host| == |WwwHost| && EqIgnoreAsciiCase(host[..4], "www.") && EqIgnoreAsciiCase(host[4..], BareHost))
  {
    assert WwwHost == "www." + BareHost;
    EqIgnoreCaseConcat(host, "www.", BareHost);
  }

  /** No other sub-domain of bilibili.com is accepted: `m.bilibili.com`,
      `space.bilibili.com` and the like are all rejected. */
  lemma SubdomainRejected(sub: string)
    requires !EqIgnoreAsciiCase(sub, "www")
    ensures !IsHost(sub + ".bilibili.com")
  {
    var host := sub + ".bilibili.com";
    assert WwwHost == "www" + ".bilibili.com";
    EqIgnoreCaseConcat(host, "www", ".bilibili.com");
    assert host[..|sub|] == sub;
    if |sub| == 3 {
      assert host[..3] == sub;
    }
  }

  /** Reference form of the path test: the path's first 7 characters are
      `/video/`, or its first 9 are `/bangumi/`, ignoring case. */
  lemma PathByPrefix(path: string)
    ensures IsPath(path) <==>
      (|path| >= 7 && EqIgnoreAsciiCase(path[..7], VideoPrefix)) ||
      (|path| >= 9 && EqIgnoreAsciiCase(path[..9], BangumiPrefix))
  {
    HostsFolded();
    LowercaseStartsWith(path, VideoPrefix);
    LowercaseStartsWith(path, BangumiPrefix);
  }

  /** The path test cannot tell two paths apart that differ only in the case
      of ASCII letters. */
  lemma PathCaseInsensitive(p: string, q: string)
    requires EqIgnoreAsciiCase(p, q)
    ensures IsPath(p) == IsPath(q)
  {
    EqIgnoreCaseIffLowerEq(p, q);
  }

  /** `valid` gives one answer for two URLs whose hosts and paths differ only
      in the case of ASCII letters. */
  lemma ValidCaseInsensitive(u: Url, v: Url)
    requires u.host.None? <==> v.host.None?
    requires u.host.Some? ==> EqIgnoreAsciiCase(u.host.value, v.host.value)
    requires EqIgnoreAsciiCase(u.path, v.path)
    ensures Valid(u) == Valid(v)
  {
    PathCaseInsensitive(u.path, v.path);
    if u.host.Some? {
      EqIgnoreCaseIffLowerEq(u.host.value, v.host.value);
      HostByFolding(u.host.value);
      HostByFolding(v.host.value);
    }
  }

  /** `valid` as one formula: a host is present, its folded form is one of the
      two accepted names, and the folded path has one of the two accepted
      prefixes. The host half is a formulation independent of `IsHost`; the
      path half is `IsPath` itself, with `StartsWith` written as Dafny's prefix
      operator (`PathByPrefix` is the independent form of the path test). */
  lemma ValidIff(url: Url)
    ensures Valid(url) <==>
      url.host.Some? &&
      (ToAsciiLowercase(url.host.value) in {WwwHost, BareHost}) &&
      (VideoPrefix <= ToAsciiLowercase(url.path) || BangumiPrefix <= ToAsciiLowercase(url.path))
  {
    if url.host.Some? {
      HostByFolding(url.host.value);
    }
  }

  /** Whatever follows the leading segment, and whatever the case of the
      segment, such a path is accepted. */
  lemma PathAcceptedExamples(rest: string)
    ensures IsPath("/VIDEO/" + rest) && IsPath("/video/" + rest) && IsPath("/Bangumi/" + rest)
  {
    PathByPrefix("/VIDEO/" + rest);
    assert ("/VIDEO/" + rest)[..7] == "/VIDEO/";
    PathByPrefix("/video/" + rest);
    assert ("/video/" + rest)[..7] == "/video/";
    PathByPrefix("/Bangumi/" + rest);
    assert ("/Bangumi/" + rest)[..9] == "/Bangumi/";
  }

  /** The prefixes include their trailing slash: a bare segment, or a longer
      word that only begins like one, is rejected. */
  lemma PathRejectedExamples()
    ensures !IsPath("/video") && !IsPath("/videos/x") && !IsPath("/bangumi") && !IsPath("/")
  {
    PathByPrefix("/video");
    PathByPrefix("/videos/x");
    assert LowerChar("/videos/x"[6]) != LowerChar(VideoPrefix[6]);
    assert LowerChar("/videos/x"[6]) != LowerChar(BangumiPrefix[6]);
    PathByPrefix("/bangumi");
    PathByPrefix("/");
  }

  /** Hosts: both accepted names in any case; a mobile or other sub-domain is
      rejected; and a URL without a host is never valid. */
  lemma HostExamples()
    ensures IsHost("WWW.Bilibili.COM") && IsHost("bilibili.com")
    ensures !IsHost("m.bilibili.com") && !IsHost("space.bilibili.com") && !IsHost("bilibili.tv")
    ensures !Valid(Url(None, "/video/BV1xx411c7mD"))
  {
    HostWwwOptional("WWW.Bilibili.COM");
    assert "WWW.Bilibili.COM"[..4] == "WWW.";
    assert "WWW.Bilibili.COM"[4..] == "Bilibili.COM";
    assert !EqIgnoreAsciiCase("m", "www");
    SubdomainRejected("m");
    assert "m" + ".bilibili.com" == "m.bilibili.com";
    assert !EqIgnoreAsciiCase("space", "www");
    SubdomainRejected("space");
    assert "space" + ".bilibili.com" == "space.bilibili.com";
    assert LowerChar("bilibili.tv"[9]) != LowerChar(BareHost[9]);
  }
}
