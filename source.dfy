/** The video-source abstraction (youngoor/src/source/mod.rs): the records a
    source produces, the interface every source offers, and the ordered
    registry that the `video_sources!` macro builds.

    The interface is modelled as a closed sum over its implementations: one
    variant per implementing type, with the operations dispatching on the
    variant. The implementations are the Bilibili source and field-less
    sources whose only behaviour is a fixed display name, such as the two the
    module's own test registers. */
module Source {
  import opened Wrappers
  import opened Urls
  import Bilibili

  /** `VideoType`: the container of a stream. */
  datatype VideoType = Flv | MP4

  /** `VideoInfo`: one playable item, with its cover picture, title,
      container, and its video and audio stream URLs in order. These URLs are
      kept whole, as text. */
  datatype VideoInfo = VideoInfo(pic: string, title: string, videoType: VideoType, video: seq<string>, audio: seq<string>)

  /** A value behind `Box<dyn VideoSource>`. */
  datatype VideoSource =
    | BilibiliVideoSource(bilibili: Bilibili.BilibiliSource)
    | UnitVideoSource(name: string)

  /** A type named in `video_sources![...]`. */
  datatype SourceType =
    | BilibiliSourceType
    | UnitSourceType(name: string)

  /** The type a source value belongs to. */
  function TypeOf(s: VideoSource): (t: SourceType)
  {
    match s
    case BilibiliVideoSource(_) => BilibiliSourceType
    case UnitVideoSource(n) => UnitSourceType(n)
  }

  /** The `&'static str` every value of a type reports as its name. */
  function TypeName(t: SourceType): string
  {
    match t
    case BilibiliSourceType => Bilibili.Name
    case UnitSourceType(n) => n
  }

  /** `VideoSource::pretty_name`. It takes `&self` and returns a constant of
      the source's type: the name depends on the type alone, never on the
      source's state (for Bilibili, its cookie). */
  function PrettyName(s: VideoSource): (r: string)
    ensures r == TypeName(TypeOf(s))
  {
    match s
    case BilibiliVideoSource(_) => Bilibili.Name
    case UnitVideoSource(n) => n
  }

  /** `VideoSource::valid`, for the types that implement it. The field-less
      sources leave it `unimplemented!()`, so it may only be asked of a
      Bilibili source, whose answer depends on the URL alone and not on the
      source's cookie. */
  function ValidOf(s: VideoSource, url: Url): (r: bool)
    requires s.BilibiliVideoSource?
    ensures r ==> url.host.Some?
  {
    Bilibili.Valid(url)
  }

  /** A Bilibili source answers `valid` the same whatever its cookie: the
      answer of one that has logged in is that of a fresh default. */
  lemma ValidOfIgnoresCookie(cookie: Option<string>, url: Url)
    ensures ValidOf(BilibiliVideoSource(Bilibili.BilibiliSource(cookie)), url)
         == ValidOf(Default(BilibiliSourceType), url)
  {
  }

  /** `<T as Default>::default()` for a listed type: a value of that type, in
      its initial state. */
  function Default(t: SourceType): (s: VideoSource)
    ensures TypeOf(s) == t
    ensures s.BilibiliVideoSource? ==> s.bilibili.cookie.None?
  {
    match t
    case BilibiliSourceType => BilibiliVideoSource(Bilibili.Default())
    case UnitSourceType(n) => UnitVideoSource(n)
  }

  /** The registry `video_sources![T1, ..., Tn]` evaluates to, described by
      how it is built: start from the empty vector and append the default of
      each listed type. */
  function Registry(types: seq<SourceType>): (r: seq<VideoSource>)
    ensures |r| == |types|
  {
    if types == [] then []
    else Registry(types[..|types| - 1]) + [Default(types[|types| - 1])]
  }

  /** Element i of the registry is the default of the i-th listed type. */
  lemma {:induction false} RegistryAt(types: seq<SourceType>, i: nat)
    requires i < |types|
    ensures Registry(types)[i] == Default(types[i])
  {
    var n := |types| - 1;
    if i < n {
      RegistryAt(types[..n], i);
    }
  }

  /** Listing more types appends their sources and leaves the sources already
      registered where and as they were. */
  lemma {:induction false} RegistryAppend(a: seq<SourceType>, b: seq<SourceType>)
    ensures Registry(a + b) == Registry(a) + Registry(b)
  {
    if b == [] {
      assert a + b == a;
    } else {
      var n := |b| - 1;
      assert (a + b)[..|a + b| - 1] == a + b[..n];
      RegistryAppend(a, b[..n]);
    }
  }

  /** The registry reports, in listing order, the names of the listed types. */
  lemma RegistryNames(types: seq<SourceType>)
    ensures forall i :: 0 <= i < |types| ==> PrettyName(Registry(types)[i]) == TypeName(types[i])
  {
    forall i | 0 <= i < |types|
      ensures PrettyName(Registry(types)[i]) == TypeName(types[i])
    {
      RegistryAt(types, i);
    }
  }

  /** A Bilibili source in the registry calls itself "bilibili" and starts
      without a cookie. */
  lemma RegistryBilibili(types: seq<SourceType>, i: nat)
    requires i < |types| && types[i] == BilibiliSourceType
    ensures PrettyName(Registry(types)[i]) == "bilibili"
    ensures Registry(types)[i] == BilibiliVideoSource(Bilibili.BilibiliSource(None))
  {
    RegistryAt(types, i);
  }

  /** The macro's expansion: a mutable vector, initially empty, and one push
      of a boxed default per listed type, in listing order. */
  method VideoSources(types: seq<SourceType>) returns (sources: seq<VideoSource>)
    ensures sources == Registry(types)
    ensures |sources| == |types|
    ensures forall i :: 0 <= i < |types| ==> sources[i] == Default(types[i])
  {
    sources := [];
    var i := 0;
    while i < |types|
      invariant 0 <= i <= |types|
      invariant sources == Registry(types[..i])
    {
      assert types[..i + 1][..i] == types[..i];
      sources := sources + [Default(types[i])];
      i := i + 1;
    }
    assert types[..i] == types;
    forall k | 0 <= k < |types|
      ensures sources[k] == Default(types[k])
    {
      RegistryAt(types, k);
    }
  }

  /** The module's test: two sources named "source1" and "source2", listed in
      that order, give a registry of two whose names come back in that order. */
  lemma TwoSourceRegistry()
    ensures |Registry([UnitSourceType("source1"), UnitSourceType("source2")])| == 2
    ensures PrettyName(Registry([UnitSourceType("source1"), UnitSourceType("source2")])[0]) == "source1"
    ensures PrettyName(Registry([UnitSourceType("source1"), UnitSourceType("source2")])[1]) == "source2"
  {
    RegistryNames([UnitSourceType("source1"), UnitSourceType("source2")]);
  }
}
