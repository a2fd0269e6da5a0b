# yb-down downloader: a Dafny model of one download call

yb-down is a small front end for the `yt-dlp` media downloader. Its core is
`Downloader.download(url, quality)` in `downloader.py`. It reads three settings:
storage folder, proxy mode and proxy address. It decides whether the link goes
through the proxy and turns the quality label into format arguments. Then it
builds the `yt-dlp` argument vector and runs it once. Each output line is passed
to an optional progress callback, and a non-zero return code raises.

This project models that decision logic with pure functions and proves what
each piece produces:

- `settings.dfy` (`Settings`): the settings map and its defaults (`YT`, `auto`, empty address).
- `proxy.dfy` (`Proxy`): the four-way proxy decision. It is proved equivalent to
  the conditions spelled out with plain substring and prefix predicates.
- `format.dfy` (`Format`): quality label to `Audio(ceiling)` or `Video(height)`, and
  the format arguments. A parser reads the arguments back, so the arguments
  determine the choice.
- `command.dfy` (`Command`): the argument vector (`Render`) and its inverse (`Parse`).
  Both round trips are proved, so the vector is an unambiguous encoding of the
  invocation. `JoinPath` is `posixpath.join`.
- `progress.dfy` (`Progress`): the read loop as a method over the sequence of reads,
  the forwarding rule as a pure function with an independent characterisation,
  and the exit-code verdict.
- `downloader.dfy` (`Downloader`): the whole call, `Plan` / `BuildCommand` / `Download`,
  with the layout, length, proxy and label properties of the final vector.
- `text.dfy` (`Text`): the Python string operations the code relies on. These are
  `startswith`, `in`, `lower` (ASCII), `replace(c, '')` and `strip()`. For `in`,
  `replace` and `strip()` there is an executable definition and a separate
  description of its result, and the two are proved to agree. `startswith` is
  the prefix test `IsPrefix`, and `lower` is stated character by character.

This revision of `downloader.py` makes one attempt. It has no quality-fallback
ladder, no tool locator and no scan for "format unavailable" errors, so the
model has none of them either.

## Model

| member | source | states |
|---|---|---|
| Settings.Get | downloader.py:22-29 | `dict.get`: a present key gives its value, a missing key gives the default |
| Settings.Resolve | downloader.py:22-29 | a key in the settings gives its value; a missing storage key gives `YT`, a missing mode `auto`, a missing address the empty string |
| Settings.ResolveIgnoresOtherKeys | downloader.py:22-29 | only the three keys are read: adding any other key changes nothing |
| Text.ContainsIff | downloader.py:33 | the left-to-right scan is true exactly when the needle occurs at some index (Python's `in`) |
| Text.Lower | downloader.py:33-36 | same length, every character lowered in place, and no upper-case ASCII letter left |
| Text.LowerIsNoneIff | downloader.py:36 | `lower(mode) == 'none'` holds exactly for the 16 case spellings of `none` |
| Text.RemoveChar | downloader.py:48 | the result holds no `p`, and every other character keeps its count |
| Text.RemoveCharDistributes | downloader.py:48 | removal works piecewise over concatenation, so the surviving characters keep their order |
| Text.RemoveCharAround | downloader.py:48 | a `p` between two stretches without `p` disappears and the stretches close up |
| Text.Strip | downloader.py:91 | the result is a slice of the line with only white space outside it and none at either end |
| Text.StripOfUnique | downloader.py:91 | there is only one such slice, so `strip()` is fully determined by that description |
| Text.StripIdempotent | downloader.py:91 | stripping a stripped line changes nothing |
| Proxy.AcceptedSchemes | downloader.py:37 | the tuple `startswith` accepts exactly the `http://`, `https://` and `socks5://` prefixes |
| Proxy.ProxyFor | downloader.py:30-38 | the proxy is used iff the lower-cased link contains `youtube.com` or `youtu.be`, the mode is no spelling of `none`, the address is non-empty, and it starts with an accepted scheme; otherwise there is none |
| Proxy.SchemeImpliesNonEmpty | downloader.py:36-37 | the emptiness test is implied by the scheme test |
| Proxy.SchemeIsCaseSensitive | downloader.py:37-38 | `SOCKS5://…` and `HTTP://…` are rejected where `socks5://…` and `http://…` are accepted |
| Proxy.AnyNoneSpellingDisables | downloader.py:36 | any case spelling of `none` switches the proxy off for every link and address |
| Proxy.LinkCaseIsIgnored | downloader.py:33 | the decision is the same for a link and its lower-cased form |
| Proxy.DomainIsPlainSubstring | downloader.py:33 | `youtu.be` anywhere in the link, even in a query string, counts as a YouTube link |
| Format.Choose | downloader.py:41-52 | audio iff the label starts with `仅音频`, with ceiling `64` iff the label contains `64k` and `128` otherwise; any other label is video with the label minus every `p` as height |
| Format.Args | downloader.py:43-52 | audio gives five arguments ending `-x --audio-format mp3`; video gives four ending `--merge-output-format mp4`; both start with `-f` |
| Format.AudioSelectorRoundTrip | downloader.py:44 | the ceiling can be read back out of the audio selector |
| Format.VideoSelectorRoundTrip | downloader.py:50 | the height can be read back out of the video selector |
| Format.SelectorsAreInjective | downloader.py:44-50 | different ceilings (heights) give different selectors |
| Format.ArgsRoundTrip | downloader.py:43-52 | reading the format arguments back gives the format they were built from |
| Format.ParseArgsCanonical | downloader.py:43-52 | any argument list that reads as a format is exactly that format's arguments |
| Command.JoinPath | downloader.py:58 | an absolute name replaces the folder; otherwise exactly one `/` goes between them when the folder is non-empty and does not end in `/`, and none is added otherwise |
| Command.JoinPathInsideFolder | downloader.py:58 | a relative name joined to a non-empty folder follows exactly one separator, right after the folder |
| Command.DefaultOutputPath | downloader.py:58 | with the default folder the output template is `YT/%(title)s.%(ext)s` |
| Command.ProxyArgs | downloader.py:30-64 | no proxy gives no arguments; a proxy gives exactly `--proxy <address>` |
| Command.Render | downloader.py:55-66 | positions of every part: `yt-dlp` first, then the format arguments, `-o` and the path, the ten constant entries, the proxy arguments, and the link last; length is 14 + format + proxy arguments |
| Command.RenderLength | downloader.py:55-66 | the vector has 18, 19, 20 or 21 entries; 18 exactly for video without proxy, 21 exactly for audio with proxy |
| Command.ProxySlot | downloader.py:63-65 | the third entry from the end is `--proxy` iff a proxy is used; otherwise the two entries before the link are `--concurrent-fragments 4` |
| Command.ParseRender | downloader.py:55-66 | reading a rendered vector gives back the invocation |
| Command.ParsedTrailer | downloader.py:58-65 | a trailer that parses is the trailer of the values read from it |
| Command.RenderParse | downloader.py:55-66 | every vector that parses is exactly the rendering of what it parses to |
| Command.RenderInjective | downloader.py:55-66 | different invocations never produce the same vector |
| Downloader.Plan | downloader.py:22-52 | the plan keeps the link, takes the format from the label, puts the template under the resolved folder, and carries the resolved address exactly when the four proxy conditions hold |
| Downloader.BuildCommand | downloader.py:55-66 | the vector has at least 18 entries, starts with `yt-dlp` and ends with the link |
| Downloader.CommandLayout | downloader.py:55-66 | for any settings, link and label: exact layout, with the proxy arguments present exactly when the four conditions hold and the constant options at fixed places |
| Downloader.CommandLength | downloader.py:43-66 | length is 14 + (5 for audio, 4 for video) + (2 with proxy, 0 without), so one of 18 to 21 |
| Downloader.ProxyArgsIff | downloader.py:30-64 | `--proxy <address>` stands right before the link iff the four conditions hold; otherwise the last constant option does |
| Downloader.MissingFolderDefaultsToYT | downloader.py:22-58 | without a storage key the output path is `YT/%(title)s.%(ext)s` |
| Downloader.MissingAddressMeansNoProxy | downloader.py:29-38 | without an address key the vector never has proxy arguments |
| Downloader.AudioLabelArgs | downloader.py:41-46 | an audio label gives exactly `-f bestaudio[abr<=N]/best[height<=240] -x --audio-format mp3`, with N `64` iff the label contains `64k` |
| Downloader.VideoLabelArgs | downloader.py:47-52 | any other label gives exactly `-f bestvideo[height<=H]+bestaudio[abr<=128]/best[height<=H] --merge-output-format mp4`, with H the label minus every `p` |
| Downloader.HeightLabel | downloader.py:48 | a label `<height>p` asks for that height |
| Downloader.EveryPIsRemoved | downloader.py:48 | a `p` inside the label is removed too, so `1080p60` asks for height `108060` |
| Downloader.NoSettingsHeightPlan | downloader.py:22-52 | with no settings, a label `<height>p` gives video at that height, output under `YT/`, and no proxy |
| Downloader.NoSettingsHeightCommand | downloader.py:22-66 | the complete vector for that case |
| Downloader.CommandDeterminesPlan | downloader.py:55-66 | the vector parses back to everything the call decided |
| Downloader.Download | downloader.py:19-95 | the call runs the built vector, forwards what the read loop forwards, and fails iff the return code is non-zero |
| Progress.ReadsBeforeEnd | downloader.py:86-89 | the loop handles every read before the first empty read after the process has exited |
| Progress.Pump | downloader.py:86-91 | the read loop sends the callback exactly the forwarding of the reads it handles |
| Progress.Forwarded | downloader.py:90-91 | nothing is forwarded without a callback, and never more lines than were read |
| Progress.ForwardedIsStrippedNonEmptyReads | downloader.py:90-91 | the callback gets the stripped non-empty reads, in read order, each once, and nothing for empty reads |
| Progress.ForwardedAppend | downloader.py:86-91 | forwarding streams: later reads only add to the end of what earlier reads produced |
| Progress.Verdict | downloader.py:94-95 | the download fails iff the return code is non-zero |

## Left out

- YAML loading (`downloader.py:11-13`) is file I/O. The loaded settings are a `map<string, string>` input. An empty settings file loads as `None`, and `None.get` fails at line 22; that failure is not modelled. Values that are not text are not modelled. A YAML null address (`代理地址:` with nothing after it) is falsy, so the source runs without a proxy, exactly like the empty address the model covers. Other non-text values make the source fail only when evaluation reaches them. For example, a non-text mode is never lowered for a link that is not a YouTube link, because the test at line 36 short-circuits.
- `os.makedirs` (`downloader.py:25`) is file-system I/O. One consequence is lost: a storage setting of `''` makes `os.makedirs('')` raise before any command is built.
- Process launch (`downloader.py:69-84`) is left out, including the Windows `STARTUPINFO` that hides the console. The tool's output is an input sequence of reads: the `readline()` text, plus whether `poll()` then saw the process gone. The return code is also an input.
- Progress.Pump: the real loop blocks until the process closes its output. A read sequence without a final empty read after exit models output that was cut short, and the loop stops at the end of the sequence.
- The callback's own effects and exceptions are left out. Only whether one is set matters.
- Command.JoinPath models POSIX `os.path.join`. Windows joins with `\` and treats drive letters specially; that is not modelled.
- Text.Lower lowers ASCII letters only, not full Unicode `str.lower()`. For the three comparisons at downloader.py:33 and 36 this gives the same answers. The only non-ASCII characters Unicode lowers to ASCII letters are the Kelvin sign (to `k`) and the dotted capital I (to `i` plus a combining dot). Neither `k` nor `i` occurs in `youtube.com`, `youtu.be` or `none`. This argument is not proved.
- Progress.Verdict does not carry the message text of the raised exception (`下载失败`, "download failed"). A failure is the single value `Failed`.
- The fallback ladder, the tool locator and "format unavailable" detection are not in the modelled code, so they are not modelled.
