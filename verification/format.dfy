/**
 How a quality label becomes yt-dlp's format arguments. A label that starts
 with the audio-only marker asks for an mp3 extracted from the best audio
 stream under a bitrate ceiling; every other label is read as a video height.
 The module also reads format arguments back, which shows that the arguments
 determine the choice they were built from.
 */
module Format {
  import opened Options
  import opened Text

  /** What the download asks for: audio under a bitrate ceiling (kbit/s) or
      video under a height, both kept as the text spliced into the selector. */
  datatype Format = Audio(abr: string) | Video(height: string)

  /** The label prefix that selects audio only ("audio only"). */
  const AudioMarker: string := "仅音频"

  /** The label text that selects the lower of the two audio ceilings. */
  const LowBitrateHint: string := "64k"

  function Choose(quality: string): (f: Format)
    ensures f.Audio? <==> IsPrefix(AudioMarker, quality)
    ensures f.Audio? ==> f.abr == (if HasSubstring(quality, "64k") then "64" else "128")
    ensures f.Video? ==> 'p' !in f.height && multiset(f.height) == multiset(quality)['p' := 0]
    ensures f.Video? ==> f.height == RemoveChar(quality, 'p')
  {
    ContainsIff(quality, LowBitrateHint);
    if IsPrefix(AudioMarker, quality) then
      Audio(if Contains(quality, LowBitrateHint) then "64" else "128")
    else
      Video(RemoveChar(quality, 'p'))
  }

  /* The fixed text around the values spliced into the selectors. */
  const AudioHead: string := "bestaudio[abr<="
  const AudioTail: string := "]/best[height<=240]"
  const VideoHead: string := "bestvideo[height<="
  const VideoMiddle: string := "]+bestaudio[abr<=128]/best[height<="
  const VideoTail: string := "]"

  /** Best audio under the ceiling, else the best stream of at most 240 lines. */
  function AudioSelector(abr: string): string {
    AudioHead + abr + AudioTail
  }

  /** Best video under the height merged with best audio under 128 kbit/s,
      else the best single stream under the height. */
  function VideoSelector(height: string): string {
    VideoHead + height + VideoMiddle + height + VideoTail
  }

  /** The arguments placed between the tool name and the output option. */
  function Args(f: Format): (args: seq<string>)
    ensures |args| == (if f.Audio? then 5 else 4)
    ensures args[0] == "-f"
    ensures f.Audio? ==> args[2..] == ["-x", "--audio-format", "mp3"]
    ensures f.Video? ==> args[2..] == ["--merge-output-format", "mp4"]
  {
    match f
    case Audio(abr) => ["-f", AudioSelector(abr), "-x", "--audio-format", "mp3"]
    case Video(height) => ["-f", VideoSelector(height), "--merge-output-format", "mp4"]
  }

  /* ---------------------------------------------------------------------- */
  /* Reading format arguments back                                           */
  /* ---------------------------------------------------------------------- */

  /** The bitrate ceiling inside an audio selector, if it is one. */
  function ParseAudioSelector(sel: string): (r: Option<string>)
    ensures r.Some? ==> AudioSelector(r.value) == sel
  {
    var fixed := |AudioHead| + |AudioTail|;
    if |sel| < fixed then None
    else
      var abr := sel[|AudioHead|..|sel| - |AudioTail|];
      if AudioSelector(abr) == sel then Some(abr) else None
  }

  /** The height inside a video selector, if it is one; the height occurs
      twice, so it is half of what the fixed text leaves over. */
  function ParseVideoSelector(sel: string): (r: Option<string>)
    ensures r.Some? ==> VideoSelector(r.value) == sel
  {
    var fixed := |VideoHead| + |VideoMiddle| + |VideoTail|;
    if |sel| < fixed || (|sel| - fixed) % 2 != 0 then None
    else
      var height := sel[|VideoHead|..|VideoHead| + (|sel| - fixed) / 2];
      if VideoSelector(height) == sel then Some(height) else None
  }

  lemma AudioSelectorRoundTrip(abr: string)
    ensures ParseAudioSelector(AudioSelector(abr)) == Some(abr)
  {
    var sel := AudioSelector(abr);
    assert sel == AudioHead + abr + AudioTail;
    assert sel[|AudioHead|..|sel| - |AudioTail|] == abr;
  }

  lemma VideoSelectorRoundTrip(height: string)
    ensures ParseVideoSelector(VideoSelector(height)) == Some(height)
  {
    var sel := VideoSelector(height);
    var fixed := |VideoHead| + |VideoMiddle| + |VideoTail|;
    assert |sel| == fixed + 2 * |height|;
    assert sel == VideoHead + height + (VideoMiddle + height + VideoTail);
    assert sel[|VideoHead|..|VideoHead| + |height|] == height;
  }

  /** Different heights give different selectors, and likewise ceilings. */
  lemma SelectorsAreInjective(a: string, b: string)
    ensures AudioSelector(a) == AudioSelector(b) ==> a == b
    ensures VideoSelector(a) == VideoSelector(b) ==> a == b
  {
    AudioSelectorRoundTrip(a);
    AudioSelectorRoundTrip(b);
    VideoSelectorRoundTrip(a);
    VideoSelectorRoundTrip(b);
  }

  /** The format a complete list of format arguments asks for. */
  function ParseArgs(args: seq<string>): (r: Option<Format>)
  {
    if |args| == 5 && args[0] == "-f" && args[2..] == ["-x", "--audio-format", "mp3"] then
      match ParseAudioSelector(args[1])
      case Some(abr) => Some(Audio(abr))
      case None => None
    else if |args| == 4 && args[0] == "-f" && args[2..] == ["--merge-output-format", "mp4"] then
      match ParseVideoSelector(args[1])
      case Some(height) => Some(Video(height))
      case None => None
    else None
  }

  /** Format arguments are read back as the format they were built from. */
  lemma ArgsRoundTrip(f: Format)
    ensures ParseArgs(Args(f)) == Some(f)
  {
    match f
    case Audio(abr) => AudioSelectorRoundTrip(abr);
    case Video(height) => VideoSelectorRoundTrip(height);
  }

  /** Only genuine format arguments are read back: whatever is accepted is
      exactly what the format would produce. */
  lemma ParseArgsCanonical(args: seq<string>, f: Format)
    requires ParseArgs(args) == Some(f)
    ensures Args(f) == args
  {
    var a := Args(f);
    assert a[0] == args[0] && a[1] == args[1];
    assert a[2..] == args[2..];
    assert a == [a[0], a[1]] + a[2..];
    assert args == [args[0], args[1]] + args[2..];
  }
}
