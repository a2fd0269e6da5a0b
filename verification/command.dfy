/**
 The yt-dlp argument vector a download runs: the tool name, the format
 arguments, the output template, the ffmpeg location, four robustness options,
 the optional proxy and finally the link. `Render` lays an invocation out as
 that vector and `Parse` reads one back, so the vector determines the
 invocation it came from.
 */
module Command {
  import opened Options
  import opened Text
  import opened Format

  const Tool: string := "yt-dlp"

  /** yt-dlp's own title/extension template, passed through untouched. */
  const OutputTemplate: string := "%(title)s.%(ext)s"

  /** The ffmpeg location and the network robustness options, which do not
      depend on anything the caller chooses. */
  const FixedFlags: seq<string> := [
    "--ffmpeg-location", ".",
    "--socket-timeout", "60",
    "--retries", "10",
    "--fragment-retries", "10",
    "--concurrent-fragments", "4"
  ]

  /** Everything one run of the tool is told. */
  datatype Invocation = Invocation(format: Format, outputPath: string, proxy: Option<string>, url: string)

  /** `posixpath.join(dir, name)`: an absolute `name` replaces `dir`; otherwise
      a separator goes between them unless `dir` is empty or already ends in
      one. */
  function JoinPath(dir: string, name: string): (p: string)
    ensures |name| <= |p| && p[|p| - |name|..] == name
    ensures IsPrefix("/", name) ==> p == name
    ensures !IsPrefix("/", name) ==> IsPrefix(dir, p) && |p| <= |dir| + 1 + |name|
    ensures !IsPrefix("/", name) && |p| == |dir| + 1 + |name| ==> p[|dir|] == '/'
    ensures !IsPrefix("/", name) && dir != [] && dir[|dir| - 1] != '/' ==> p == dir + "/" + name
    ensures !IsPrefix("/", name) && (dir == [] || dir[|dir| - 1] == '/') ==> p == dir + name
  {
    if IsPrefix("/", name) then name
    else if dir == [] || dir[|dir| - 1] == '/' then dir + name
    else dir + "/" + name
  }

  /** A relative name joined to a non-empty folder always lands inside it:
      the name follows exactly one separator, and what comes before the name
      is the folder ending in `/`. */
  lemma JoinPathInsideFolder(dir: string, name: string)
    requires !IsPrefix("/", name) && dir != []
    ensures var p := JoinPath(dir, name);
            && |p| > |name| && p[|p| - |name| - 1] == '/'
            && p[..|p| - |name|] == (if dir[|dir| - 1] == '/' then dir else dir + "/")
  {
  }

  /** With the default folder the output lands in `YT/`. */
  lemma DefaultOutputPath()
    ensures JoinPath("YT", OutputTemplate) == "YT/%(title)s.%(ext)s"
  {
    assert OutputTemplate[0] == '%';
    assert !IsPrefix("/", OutputTemplate);
    var dir := "YT";
    assert dir[|dir| - 1] == 'T';
    assert JoinPath(dir, OutputTemplate) == dir + "/" + OutputTemplate;
  }

  function ProxyArgs(proxy: Option<string>): (args: seq<string>)
    ensures proxy.None? ==> args == []
    ensures proxy.Some? ==> args == ["--proxy", proxy.value]
  {
    match proxy
    case None => []
    case Some(address) => ["--proxy", address]
  }

  /** Everything after the format arguments: output template, the constant
      options, the proxy and the link. */
  function Trailer(outputPath: string, proxy: Option<string>, url: string): (tr: seq<string>)
    ensures |tr| == 13 + |ProxyArgs(proxy)|
    ensures tr[..2] == ["-o", outputPath]
    ensures tr[2..12] == FixedFlags
    ensures tr[12..|tr| - 1] == ProxyArgs(proxy)
    ensures tr[|tr| - 1] == url
  {
    var tr := ["-o", outputPath] + FixedFlags + ProxyArgs(proxy) + [url];
    assert tr[12..|tr| - 1] == ProxyArgs(proxy);
    tr
  }

  /** The argument vector, tool name first and link last. */
  function Render(inv: Invocation): (cmd: seq<string>)
    ensures var fa := Args(inv.format);
            var pa := ProxyArgs(inv.proxy);
            && |cmd| == 14 + |fa| + |pa|
            && cmd[0] == Tool
            && cmd[1..1 + |fa|] == fa
            && cmd[1 + |fa|..3 + |fa|] == ["-o", inv.outputPath]
            && cmd[3 + |fa|..13 + |fa|] == FixedFlags
            && cmd[13 + |fa|..|cmd| - 1] == pa
            && cmd[|cmd| - 1] == inv.url
  {
    var fa := Args(inv.format);
    var tr := Trailer(inv.outputPath, inv.proxy, inv.url);
    var head := [Tool] + fa;
    var cmd := head + tr;
    assert cmd[1..1 + |fa|] == fa;
    SliceAfterPrefix(head, tr, 0, 2);
    SliceAfterPrefix(head, tr, 2, 12);
    SliceAfterPrefix(head, tr, 12, |tr| - 1);
    cmd
  }

  /** Only four lengths are possible: audio or video, with or without proxy. */
  lemma RenderLength(inv: Invocation)
    ensures |Render(inv)| in {18, 19, 20, 21}
    ensures |Render(inv)| == 18 <==> inv.format.Video? && inv.proxy.None?
    ensures |Render(inv)| == 21 <==> inv.format.Audio? && inv.proxy.Some?
  {
  }

  /** The proxy option, when present, is the third entry from the end; without
      it that place holds the last constant option. */
  lemma ProxySlot(inv: Invocation)
    ensures var cmd := Render(inv);
            && (inv.proxy.Some? ==> cmd[|cmd| - 3..|cmd| - 1] == ["--proxy", inv.proxy.value])
            && (inv.proxy.None? ==> cmd[|cmd| - 3..|cmd| - 1] == ["--concurrent-fragments", "4"])
            && (cmd[|cmd| - 3] == "--proxy" <==> inv.proxy.Some?)
  {
    var cmd := Render(inv);
    var n := |Args(inv.format)|;
    if inv.proxy.None? {
      assert cmd[|cmd| - 3..|cmd| - 1] == cmd[3 + n..13 + n][8..10];
      assert "--concurrent-fragments"[2] != "--proxy"[2];
    }
  }

  /** The invocation an argument vector describes, if it has the shape
      `Render` produces. */
  function Parse(cmd: seq<string>): (r: Option<Invocation>)
  {
    if |cmd| < 18 || cmd[0] != Tool then None
    else
      var n := if cmd[3] == "-x" then 5 else 4;
      var rest := cmd[1 + n..];
      if |rest| != 13 && |rest| != 15 then None
      else if rest[0] != "-o" || rest[2..12] != FixedFlags then None
      else if |rest| == 15 && rest[12] != "--proxy" then None
      else
        match ParseArgs(cmd[1..1 + n])
        case None => None
        case Some(f) =>
          Some(Invocation(f, rest[1], if |rest| == 15 then Some(rest[13]) else None, rest[|rest| - 1]))
  }

  /** Reading a rendered vector gives back the invocation. */
  lemma ParseRender(inv: Invocation)
    ensures Parse(Render(inv)) == Some(inv)
  {
    var cmd := Render(inv);
    var fa := Args(inv.format);
    var n := |fa|;
    assert cmd[3] == fa[2];
    assert cmd[3] == "-x" <==> inv.format.Audio?;
    var rest := cmd[1 + n..];
    assert rest[0] == "-o" && rest[1] == inv.outputPath;
    assert rest[2..12] == cmd[3 + n..13 + n];
    assert rest[12..|rest| - 1] == ProxyArgs(inv.proxy);
    ArgsRoundTrip(inv.format);
  }

  /** A trailer `Parse` accepts is the trailer of the values it reads off. */
  lemma ParsedTrailer(rest: seq<string>)
    requires |rest| == 13 || |rest| == 15
    requires rest[0] == "-o" && rest[2..12] == FixedFlags
    requires |rest| == 15 ==> rest[12] == "--proxy"
    ensures rest == Trailer(rest[1], if |rest| == 15 then Some(rest[13]) else None, rest[|rest| - 1])
  {
    SplitThree(rest, 2, 12);
    assert rest[..2] == ["-o", rest[1]];
    if |rest| == 15 {
      assert rest[12..] == ["--proxy", rest[13], rest[14]];
    } else {
      assert rest[12..] == [rest[12]];
    }
  }

  /** Only well-formed vectors are read: whatever `Parse` accepts is exactly
      what `Render` would produce for the invocation it returns. */
  lemma RenderParse(cmd: seq<string>, inv: Invocation)
    requires Parse(cmd) == Some(inv)
    ensures Render(inv) == cmd
  {
    var n := if cmd[3] == "-x" then 5 else 4;
    var rest := cmd[1 + n..];
    ParseArgsCanonical(cmd[1..1 + n], inv.format);
    ParsedTrailer(rest);
    assert rest == Trailer(inv.outputPath, inv.proxy, inv.url);
    SplitThree(cmd, 1, 1 + n);
    assert cmd[..1] == [Tool];
  }

  /** Different invocations never share an argument vector. */
  lemma RenderInjective(a: Invocation, b: Invocation)
    requires Render(a) == Render(b)
    ensures a == b
  {
    ParseRender(a);
    ParseRender(b);
  }
}
