/**
 One call of the downloader: the settings, the link and the quality label fix
 the yt-dlp argument vector; the tool's output reads and its return code,
 supplied from outside, fix what the progress callback receives and whether
 the download fails.
 */
module Downloader {
  import opened Options
  import opened Text
  import opened Settings
  import opened Proxy
  import opened Format
  import opened Command
  import opened Progress

  /** What one download runs: storage folder, proxy and format read from the
      settings and the label. */
  function Plan(settings: SettingsMap, url: string, quality: string): (inv: Invocation)
    ensures inv.url == url
    ensures inv.format == Choose(quality)
    ensures inv.outputPath == JoinPath(Resolve(settings).outputDir, OutputTemplate)
    ensures var cfg := Resolve(settings);
            && (inv.proxy.Some? <==> ProxyApplies(url, cfg.proxyMode, cfg.proxyAddress))
            && (inv.proxy.Some? ==> inv.proxy.value == cfg.proxyAddress)
  {
    var cfg := Resolve(settings);
    Invocation(
      Choose(quality),
      JoinPath(cfg.outputDir, OutputTemplate),
      ProxyFor(url, cfg.proxyMode, cfg.proxyAddress),
      url)
  }

  /** The argument vector handed to the process. */
  function BuildCommand(settings: SettingsMap, url: string, quality: string): (cmd: seq<string>)
    ensures |cmd| >= 18
    ensures cmd[0] == Tool && cmd[|cmd| - 1] == url
  {
    Render(Plan(settings, url, quality))
  }

  /** The proxy arguments the decision calls for, in terms of its conditions. */
  ghost function ExpectedProxyArgs(url: string, cfg: Config): seq<string> {
    if ProxyApplies(url, cfg.proxyMode, cfg.proxyAddress) then ["--proxy", cfg.proxyAddress] else []
  }

  /** The layout of the vector: tool, format arguments, output template,
      the constant options, the proxy arguments exactly when the proxy
      applies, and the link last. */
  lemma CommandLayout(settings: SettingsMap, url: string, quality: string)
    ensures var cmd := BuildCommand(settings, url, quality);
            var cfg := Resolve(settings);
            var fa := Args(Choose(quality));
            var pa := ExpectedProxyArgs(url, cfg);
            && |cmd| == 14 + |fa| + |pa|
            && cmd[0] == "yt-dlp"
            && cmd[1..1 + |fa|] == fa
            && cmd[1 + |fa|..3 + |fa|] == ["-o", JoinPath(cfg.outputDir, "%(title)s.%(ext)s")]
            && cmd[3 + |fa|..13 + |fa|] == [
                 "--ffmpeg-location", ".",
                 "--socket-timeout", "60",
                 "--retries", "10",
                 "--fragment-retries", "10",
                 "--concurrent-fragments", "4"]
            && cmd[13 + |fa|..|cmd| - 1] == pa
            && cmd[|cmd| - 1] == url
  {
  }

  /** The vector has 18, 19, 20 or 21 entries: four or five format arguments,
      and none or two proxy arguments. */
  lemma CommandLength(settings: SettingsMap, url: string, quality: string)
    ensures |BuildCommand(settings, url, quality)| in {18, 19, 20, 21}
    ensures |BuildCommand(settings, url, quality)| ==
              14 + (if IsPrefix("仅音频", quality) then 5 else 4)
                 + |ExpectedProxyArgs(url, Resolve(settings))|
  {
    RenderLength(Plan(settings, url, quality));
  }

  /** The proxy arguments sit right before the link exactly when all four
      conditions hold: a YouTube domain in the lower-cased link, a mode that is
      not some spelling of `none`, a non-empty address, and an accepted scheme. */
  lemma ProxyArgsIff(settings: SettingsMap, url: string, quality: string)
    ensures var cmd := BuildCommand(settings, url, quality);
            var cfg := Resolve(settings);
            && (cmd[|cmd| - 3] == "--proxy" <==> ProxyApplies(url, cfg.proxyMode, cfg.proxyAddress))
            && (ProxyApplies(url, cfg.proxyMode, cfg.proxyAddress) ==>
                  cmd[|cmd| - 3..|cmd| - 1] == ["--proxy", cfg.proxyAddress])
            && (!ProxyApplies(url, cfg.proxyMode, cfg.proxyAddress) ==>
                  cmd[|cmd| - 3..|cmd| - 1] == ["--concurrent-fragments", "4"])
  {
    ProxySlot(Plan(settings, url, quality));
  }

  /** Without a storage setting the output goes to the folder `YT`. */
  lemma MissingFolderDefaultsToYT(settings: SettingsMap, url: string, quality: string)
    requires OutputDirKey !in settings
    ensures var cmd := BuildCommand(settings, url, quality);
            cmd[2 + |Args(Choose(quality))|] == "YT/%(title)s.%(ext)s"
  {
    CommandLayout(settings, url, quality);
    DefaultOutputPath();
  }

  /** Without a proxy-address setting the address is empty, so the download is
      never proxied, whatever the link and the mode. */
  lemma MissingAddressMeansNoProxy(settings: SettingsMap, url: string, quality: string)
    requires ProxyAddressKey !in settings
    ensures var cmd := BuildCommand(settings, url, quality);
            && |cmd| == 14 + |Args(Choose(quality))|
            && cmd[|cmd| - 3..|cmd| - 1] == ["--concurrent-fragments", "4"]
  {
    assert Resolve(settings).proxyAddress == "";
    assert ExpectedProxyArgs(url, Resolve(settings)) == [];
    CommandLayout(settings, url, quality);
  }

  /** An audio-only label asks for an mp3 from audio under 64 kbit/s when the
      label mentions `64k`, and under 128 kbit/s otherwise. */
  lemma AudioLabelArgs(settings: SettingsMap, url: string, quality: string)
    requires IsPrefix("仅音频", quality)
    ensures var abr := if HasSubstring(quality, "64k") then "64" else "128";
            BuildCommand(settings, url, quality)[1..6] ==
              ["-f", "bestaudio[abr<=" + abr + "]/best[height<=240]", "-x", "--audio-format", "mp3"]
  {
    CommandLayout(settings, url, quality);
  }

  /** Any other label is a video height: every `p` in it is dropped, wherever
      it stands, and what is left caps the height of both the merged and the
      single-stream choice. */
  lemma VideoLabelArgs(settings: SettingsMap, url: string, quality: string)
    requires !IsPrefix("仅音频", quality)
    ensures var h := RemoveChar(quality, 'p');
            BuildCommand(settings, url, quality)[1..5] ==
              ["-f", "bestvideo[height<=" + h + "]+bestaudio[abr<=128]/best[height<=" + h + "]",
               "--merge-output-format", "mp4"]
  {
    CommandLayout(settings, url, quality);
  }

  /** The vector determines everything the download decided. */
  lemma CommandDeterminesPlan(settings: SettingsMap, url: string, quality: string)
    ensures Parse(BuildCommand(settings, url, quality)) == Some(Plan(settings, url, quality))
  {
    ParseRender(Plan(settings, url, quality));
  }

  /** A height label such as `720p` with no settings at all: video capped at
      that height, output under `YT/`, and no proxy since no address is
      configured. */
  lemma NoSettingsHeightPlan(url: string, height: string)
    requires 'p' !in height && !IsPrefix("仅音频", height + "p")
    ensures Plan(map[], url, height + "p") == Invocation(Video(height), "YT/%(title)s.%(ext)s", None, url)
  {
    HeightLabel(height);
    DefaultOutputPath();
    assert Resolve(map[]).proxyAddress == "";
  }

  /** The whole vector for such a download. */
  lemma NoSettingsHeightCommand(url: string, height: string)
    requires 'p' !in height && !IsPrefix("仅音频", height + "p")
    ensures BuildCommand(map[], url, height + "p") ==
      ["yt-dlp"]
      + ["-f", "bestvideo[height<=" + height + "]+bestaudio[abr<=128]/best[height<=" + height + "]",
         "--merge-output-format", "mp4"]
      + (["-o", "YT/%(title)s.%(ext)s"]
         + ["--ffmpeg-location", ".", "--socket-timeout", "60", "--retries", "10",
            "--fragment-retries", "10", "--concurrent-fragments", "4"]
         + [url])
  {
    NoSettingsHeightPlan(url, height);
    assert Trailer("YT/%(title)s.%(ext)s", None, url) ==
      ["-o", "YT/%(title)s.%(ext)s"] + FixedFlags + [url];
  }

  /** A label that is a height followed by `p`, the usual form, asks for
      that height. */
  lemma HeightLabel(height: string)
    requires 'p' !in height && !IsPrefix("仅音频", height + "p")
    ensures Choose(height + "p") == Video(height)
  {
    RemoveCharDistributes(height, "p", 'p');
    RemoveCharAbsent(height, 'p');
  }

  /** Every `p` goes, not only a trailing one: a `p` inside the label is
      dropped as well, so `1080p60` asks for height 108060. */
  lemma EveryPIsRemoved(a: string, b: string)
    requires 'p' !in a && 'p' !in b && !IsPrefix("仅音频", a + "p" + b)
    ensures Choose(a + "p" + b) == Video(a + b)
  {
    RemoveCharAround(a, b, 'p');
  }

  /** One download: build the vector, pump the tool's output to the callback,
      then judge the return code. `events` are the reads the loop sees and
      `returnCode` the code `poll()` reported when the loop ended. */
  method Download(settings: SettingsMap, url: string, quality: string,
                  events: seq<ReadEvent>, returnCode: int, hasCallback: bool)
    returns (command: seq<string>, sent: seq<string>, outcome: Outcome)
    ensures command == BuildCommand(settings, url, quality)
    ensures sent == Forwarded(Outputs(events[..ReadsBeforeEnd(events)]), hasCallback)
    ensures !hasCallback ==> sent == []
    ensures outcome == Failed <==> returnCode != 0
  {
    command := BuildCommand(settings, url, quality);
    sent := Pump(events, hasCallback);
    outcome := Verdict(returnCode);
  }
}
