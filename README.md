# youngoor video sources, modelled in Dafny

youngoor gets video stream URLs from video web sites through pluggable
"video sources". This project models the part of the repository that has
behaviour today:

- **The video-source interface and its registry** (`source/mod.rs`). The
  `VideoSource` interface gives each source a constant display name, a URL
  recogniser, a stream lister and a token setter and getter. The records are
  `VideoInfo` and `VideoType` (`Flv` or `MP4`). The `video_sources!` macro
  builds the ordered registry of sources: it starts from an empty vector and
  pushes the `Default::default()` value of each listed type, in listing order.
  The interface is modelled as a closed sum over its implementations
  (`Source.VideoSource`): the Bilibili source, and field-less sources whose
  only behaviour is a fixed name, like the two in the module's own test. The
  macro is modelled as the method `Source.VideoSources`, a loop that appends one
  default per listed type. It is proved equal to the function
  `Source.Registry`, and the lemmas about that function give the length, the
  order, the defaults and the names.
- **The Bilibili source** (`source/bilibili.rs`). Its state is an optional
  cookie, absent by default. Its display name is `"bilibili"`. Its recogniser
  `valid` is a pure predicate on the URL. The URL must have a host. The host
  must equal `www.bilibili.com` or `bilibili.com`, ignoring ASCII case. The
  path, folded to lower case, must start with `/video/` or `/bangumi/`. A URL
  is modelled by the two values `valid` reads from it, `host_str()` and
  `path()` (`Urls.Url`). ASCII case folding is written out in module `Ascii`:
  only `A` to `Z` change.

`VideoType` is a Dafny datatype, so its two variants are distinct and compared
structurally. All modelled operations of a source are functions of values.
This matches the source, where `pretty_name` and `valid` take `&self` and cannot
change the source.

The repository has no logic beyond this. `valid` only answers yes or no, and
`video_list` (youngoor/src/source/bilibili.rs:20-22) is `unimplemented!()`.

Files: `wrappers.dfy` (Option), `urls.dfy` (the URL's host and path),
`error.dfy` (the error type of `video_list`, declared for completeness only:
no modelled signature uses it), `ascii.dfy` (ASCII folding, case-insensitive
equality, prefix test), `bilibili.dfy` (the Bilibili source), `source.dfy`
(records, interface, registry).

## Model

| member | source | states |
|---|---|---|
| `Ascii.LowerChar` | youngoor/src/source/bilibili.rs:29 | Folding a character never leaves an upper-case ASCII letter. `A`–`Z` move to their lower-case letter, 32 code points up. Every other character is unchanged. |
| `Ascii.ToAsciiLowercase` | youngoor/src/source/bilibili.rs:29 | The lower-cased copy of the path has the same length as the path. |
| `Ascii.EqIgnoreAsciiCase` | youngoor/src/source/bilibili.rs:26-27 | `str::eq_ignore_ascii_case`: equal strings compare equal, and strings that compare equal have the same length. |
| `Ascii.StartsWith` | youngoor/src/source/bilibili.rs:30-31 | `str::starts_with` holds exactly when the needle is a prefix of the string. |
| `Ascii.LowercaseAt` | youngoor/src/source/bilibili.rs:29 | Lower-casing a string works character by character: position i of the copy is the folded character i. |
| `Ascii.LowercaseFolded` | youngoor/src/source/bilibili.rs:29 | The lower-cased copy has no upper-case ASCII letter. Lower-casing leaves a string unchanged exactly when it has none. |
| `Ascii.LowercaseIdempotent` | youngoor/src/source/bilibili.rs:29 | Lower-casing twice gives the same string as lower-casing once. |
| `Ascii.LowercaseSlice` | youngoor/src/source/bilibili.rs:29-31 | Lower-casing commutes with taking a slice. The prefix test on the lower-cased path depends on this. |
| `Ascii.EqIgnoreCaseIffLowerEq` | youngoor/src/source/bilibili.rs:26-27 | `eq_ignore_ascii_case` holds exactly when the two lower-cased copies are equal, in both directions. |
| `Ascii.EqIgnoreCaseConcat` | youngoor/src/source/bilibili.rs:26-27 | A case-insensitive comparison with `a + b` holds exactly when the lengths add up and both parts compare equal. |
| `Ascii.LowercaseStartsWith` | youngoor/src/source/bilibili.rs:29-31 | Take a needle with no upper-case letter. The lower-cased string starts with it exactly when the string's head of the needle's length equals the needle, ignoring case. |
| `Bilibili.Default` | youngoor/src/source/bilibili.rs:40-46 | A default Bilibili source has no cookie. |
| `Bilibili.Valid` | youngoor/src/source/bilibili.rs:24-37 | `valid` is false for every URL without a host. |
| `Bilibili.IsHost` | youngoor/src/source/bilibili.rs:26-27 | `is_host`: an accepted host has the length of `www.bilibili.com` or of `bilibili.com`. |
| `Bilibili.IsPath` | youngoor/src/source/bilibili.rs:28-32 | `is_path`: an accepted path is at least as long as `/video/`. |
| `Bilibili.HostByFolding` | youngoor/src/source/bilibili.rs:26-27 | The host test holds exactly when the lower-cased host is `www.bilibili.com` or `bilibili.com`. |
| `Bilibili.HostWwwOptional` | youngoor/src/source/bilibili.rs:26-27 | The host test accepts exactly two forms, in any case: the bare domain, and the domain behind a `www.` label. |
| `Bilibili.SubdomainRejected` | youngoor/src/source/bilibili.rs:26-27 | Every `<label>.bilibili.com` whose label is not `www` in some case is rejected, e.g. `m.bilibili.com`. |
| `Bilibili.PathByPrefix` | youngoor/src/source/bilibili.rs:28-32 | The path test holds exactly when the first 7 characters equal `/video/`, or the first 9 equal `/bangumi/`, ignoring case. |
| `Bilibili.PathCaseInsensitive` | youngoor/src/source/bilibili.rs:29 | Two paths that differ only in ASCII case get the same answer, e.g. `/VIDEO/x` and `/video/x`. |
| `Bilibili.ValidCaseInsensitive` | youngoor/src/source/bilibili.rs:24-37 | `valid` gives the same answer for two URLs whose hosts and paths differ only in ASCII case. |
| `Bilibili.ValidIff` | youngoor/src/source/bilibili.rs:24-37 | `valid` holds exactly when all three parts hold: a host is present, the lower-cased host is one of the two names, and the lower-cased path has `/video/` or `/bangumi/` as a prefix. The host part is an independent form of the host test. The path part is the path test with `starts_with` written as the prefix relation. `PathByPrefix` is the independent form of the path test. |
| `Bilibili.PathAcceptedExamples` | youngoor/src/source/bilibili.rs:29-31 | `/VIDEO/…`, `/video/…` and `/Bangumi/…` are accepted, whatever follows. |
| `Bilibili.PathRejectedExamples` | youngoor/src/source/bilibili.rs:30-31 | The trailing slash is required: `/video`, `/videos/x`, `/bangumi` and `/` are rejected. |
| `Bilibili.HostExamples` | youngoor/src/source/bilibili.rs:25-27 | Accepted hosts: `WWW.Bilibili.COM` and `bilibili.com`. Rejected hosts: `m.bilibili.com`, `space.bilibili.com` and `bilibili.tv`. A URL with no host is invalid. |
| `Source.PrettyName` | youngoor/src/source/mod.rs:8 | A source's name is the constant of its type. It does not depend on the source's state. |
| `Source.ValidOf` | youngoor/src/source/mod.rs:11 | The interface's `valid`, asked of a Bilibili source, is false for every URL without a host. |
| `Source.ValidOfIgnoresCookie` | youngoor/src/source/bilibili.rs:24-37 | A Bilibili source answers `valid` the same whatever its cookie, because `valid` reads no field of the source. |
| `Source.Default` | youngoor/src/source/mod.rs:36 | `Default::default()` of a listed type is a value of that type. A default Bilibili source has no cookie. |
| `Source.Registry` | youngoor/src/source/mod.rs:34-37 | The registry has exactly one source per listed type. |
| `Source.RegistryAt` | youngoor/src/source/mod.rs:36 | Element i of the registry is the default of the i-th listed type. |
| `Source.RegistryAppend` | youngoor/src/source/mod.rs:35-36 | The registry starts empty. Listing more types appends their sources and leaves the earlier sources unchanged. |
| `Source.RegistryNames` | youngoor/src/source/mod.rs:36 | Element i of the registry reports the name of the i-th listed type. |
| `Source.RegistryBilibili` | youngoor/src/source/bilibili.rs:16-46 | A registered Bilibili source is named `"bilibili"` and has no cookie. |
| `Source.VideoSources` | youngoor/src/source/mod.rs:33-39 | The macro's push loop yields `Registry(types)`. It has as many sources as listed types, and element i is the default of type i. |
| `Source.TwoSourceRegistry` | youngoor/src/source/mod.rs:104-107 | Listing `source1` then `source2` gives a registry of length 2 whose names are `source1` and `source2`, in that order. |

## Left out

- `video_list` (youngoor/src/source/bilibili.rs:20-22): its body is `unimplemented!()`. It would do network I/O through the HTTP client.
- The HTTP client field of `BilibiliSource`: it has no logic of its own.
- `set_token` and `get_token`: the interface declares them, but no type in the code implements them. `BilibiliSource` lacks both, and the test's sources leave them `unimplemented!()`. The model does not declare them.
- Source.ValidOf: requires a Bilibili source. The test's field-less sources leave `valid` as `unimplemented!()`, so asking them panics and there is nothing to model.
- `VideoInfo` keeps its URLs (`pic`, `video`, `audio`) as plain text. URL parsing is not modelled for them.
- URL parsing and normalisation by `reqwest::Url`: the model takes `host_str()` and `path()` as given.
- Strings are sequences of characters, not UTF-8 bytes. The Rust comparisons run on bytes. Folding only changes ASCII letters, and every string compared against is ASCII, so the answers agree.
- `Response`, `PInfo` and `Dimension` are declared as plain datatypes. No code interprets them.
- The display strings of `VideoSourceError`: they are messages only and carry no logic.
- `async_trait` and the boxing of sources: these are the mechanics of Rust's asynchronous trait objects.
