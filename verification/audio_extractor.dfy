/** `AudioExtractor`: where the extracted soundtrack goes, how its sample
    bytes are cut into chunks of a fixed duration, and how the chunk
    transcripts are combined.  The ffmpeg run, the wave-file reads and
    writes and the speech-to-text service are outside the model and appear
    as parameters. */
module AudioExtractor {
  import opened Common
  import opened Text
  import opened Paths
  import opened TextAnalyzer

  newtype Byte = b: int | 0 <= b < 256

  /** `f"{movie_name}/audio/audio.wav"` with `movie_name` the file name of
      the movie without its extension. */
  function AudioPath(moviePath: string): string
  {
    AudioDir(moviePath) + "/audio.wav"
  }

  /** `f"{movie_name}/audio"`. */
  function AudioDir(moviePath: string): string
  {
    StemOf(BaseName(moviePath)) + "/audio"
  }

  /** `extract_audio`.  `run` is the outcome of the ffmpeg process (its
      return code, or `Raised` when starting it raises) and `written` whether
      the output file exists afterwards. */
  function ExtractAudio(moviePath: string, run: Attempt<int>, written: bool): (r: Option<string>)
    ensures r.Some? <==> run == Returned(0) && written
    ensures r.Some? ==> r.value == AudioPath(moviePath)
  {
    match run
    case Raised => None
    case Returned(code) =>
      if code != 0 then None
      else if written then Some(AudioPath(moviePath))
      else None
  }

  /** `os.path.dirname(a + "/" + b)` is `a` when `b` is a plain name and `a`
      does not end in '/'. */
  lemma DirNameOfChild(a: string, b: string)
    requires a != [] && a[|a| - 1] != '/'
    requires b != [] && '/' !in b
    ensures DirName(a + "/" + b) == a
  {
    var p := a + "/" + b;
    assert p[|a|] == '/';
    assert forall k :: |a| < k < |p| ==> p[k] == b[k - |a| - 1];
    var r := LastIndexOf(p, '/');
    assert r == Some(|a|);
    assert p[..|a| + 1] == a + "/";
    assert (a + "/")[|a| - 1] != '/';
    assert (a + "/")[..|a|] == a;
    assert TrimEnd(a, {'/'}) == a;
    assert TrimEnd(a + "/", {'/'}) == a;
  }

  /** The directory the chunks of an audio file go to: "chunks" beside
      it. */
  function ChunksDir(audioPath: string): string
  {
    PathJoin(DirName(audioPath), "chunks")
  }

  /** `os.path.join(a, b)` puts one '/' between a directory that does not
      end in '/' and a relative name. */
  lemma PathJoinChild(a: string, b: string)
    requires a != [] && a[|a| - 1] != '/'
    requires b != [] && b[0] != '/'
    ensures PathJoin(a, b) == a + "/" + b
  {
    assert !StartsWith(b, "/");
    assert !EndsWith(a, "/");
  }

  /** The extracted soundtrack is called "audio.wav". */
  lemma AudioFileName(moviePath: string)
    ensures BaseName(AudioPath(moviePath)) == "audio.wav"
  {
    var dir := AudioDir(moviePath);
    assert dir[|dir| - 1] == 'o';
    AudioPathSplit(dir);
    PathJoinChild(dir, "audio.wav");
    JoinBaseName(dir, "audio.wav");
  }

  lemma AudioPathSplit(dir: string)
    ensures dir + "/audio.wav" == dir + "/" + "audio.wav"
  {
    assert "/audio.wav" == "/" + "audio.wav";
  }

  /** The chunks of the extracted soundtrack go to "<movie>/audio/chunks". */
  lemma AudioChunksDir(moviePath: string)
    ensures ChunksDir(AudioPath(moviePath)) == StemOf(BaseName(moviePath)) + "/audio/chunks"
  {
    var stem := StemOf(BaseName(moviePath));
    var dir := AudioDir(moviePath);
    assert dir[|dir| - 1] == 'o';
    AudioPathSplit(dir);
    DirNameOfChild(dir, "audio.wav");
    PathJoinChild(dir, "chunks");
    ChunksSuffix(stem);
  }

  lemma ChunksSuffix(stem: string)
    ensures (stem + "/audio") + "/" + "chunks" == stem + "/audio/chunks"
  {
    assert "/audio" + "/" + "chunks" == "/audio/chunks";
    assert (stem + "/audio") + "/" + "chunks" == stem + ("/audio" + "/" + "chunks");
  }

  /** What `wave.open` yields: the sample bytes and the parameters. */
  datatype WaveFile = WaveFile(frames: seq<Byte>, framerate: nat, sampwidth: nat, nchannels: nat)

  /** `int(framerate * chunk_duration) * sampwidth * nchannels`. */
  function ChunkSize(w: WaveFile, chunkDuration: int): int
  {
    w.framerate * chunkDuration * w.sampwidth * w.nchannels
  }

  /** The count logged as `total_chunks`. */
  function TotalChunks(n: nat, size: nat): nat
    requires size > 0
  {
    n / size + (if n % size != 0 then 1 else 0)
  }

  /** The logged count is the ceiling of the length over the chunk size,
      the number of chunks the loop writes. */
  lemma TotalChunksCount(frames: seq<Byte>, size: nat)
    requires size > 0
    ensures TotalChunks(|frames|, size) == CeilDiv(|frames|, size) == |Chunks(frames, size)|
  {
    TotalChunksCeil(|frames|, size);
    ChunksCount(frames, size);
  }

  lemma TotalChunksCeil(n: nat, size: nat)
    requires size > 0
    ensures TotalChunks(n, size) == (n + size - 1) / size
  {
    var q, r := n / size, n % size;
    assert n == q * size + r;
    if r == 0 {
      assert n + size - 1 == q * size + (size - 1);
      DivUnique(n + size - 1, size, q, size - 1);
    } else {
      assert n + size - 1 == (q + 1) * size + (r - 1);
      DivUnique(n + size - 1, size, q + 1, r - 1);
    }
  }

  /** `f"{chunks_dir}/chunk_{i}.wav"`. */
  function ChunkName(dir: string, i: nat): string
  {
    dir + "/chunk_" + NatToString(i) + ".wav"
  }

  function ChunkNames(dir: string, k: nat): (names: seq<string>)
    ensures |names| == k && forall i :: 0 <= i < k ==> names[i] == ChunkName(dir, i)
  {
    seq(k, i requires 0 <= i < k => ChunkName(dir, i))
  }

  /** Distinct chunks get distinct names. */
  lemma ChunkNamesDistinct(dir: string, i: nat, j: nat)
    requires i != j
    ensures ChunkName(dir, i) != ChunkName(dir, j)
  {
    var p := dir + "/chunk_";
    var a, b := ChunkName(dir, i), ChunkName(dir, j);
    assert a[|p| .. |a| - 4] == NatToString(i);
    assert b[|p| .. |b| - 4] == NatToString(j);
    if NatToString(i) == NatToString(j) {
      NatToStringInjective(i, j);
    }
  }

  /** The chunk length in seconds when the caller gives none. */
  const DefaultChunkDuration := 10

  /** `split_audio`; callers that pass no duration use
      `DefaultChunkDuration`.  `wav` is the outcome of opening the audio file.  An
      exception (the file cannot be read, or a chunk size of 0, which makes
      the count divide by zero) gives no chunks; so does a negative size,
      for which the offsets are empty.  Otherwise `written` holds the chunk
      contents in order and `paths` their names. */
  method SplitAudio(audioPath: string, chunkDuration: int, wav: Attempt<WaveFile>)
    returns (paths: seq<string>, written: seq<seq<Byte>>)
    ensures wav.Raised? || ChunkSize(wav.value, chunkDuration) <= 0 ==> paths == [] && written == []
    ensures wav.Returned? && ChunkSize(wav.value, chunkDuration) > 0 ==>
              && written == Chunks(wav.value.frames, ChunkSize(wav.value, chunkDuration) as nat)
              && paths == ChunkNames(ChunksDir(audioPath), |written|)
  {
    var chunksDir := ChunksDir(audioPath);
    if wav.Raised? {
      return [], [];
    }
    var frames := wav.value.frames;
    var chunkSize := ChunkSize(wav.value, chunkDuration);
    if chunkSize == 0 {
      return [], [];
    }
    paths, written := [], [];
    if chunkSize > 0 {
      paths, written := WriteChunks(frames, chunkSize, chunksDir);
    }
  }

  /** The chunk loop of `split_audio`: slices of `size` bytes at offsets 0,
      size, 2 * size, ... below the length, each named by its number. */
  method WriteChunks(frames: seq<Byte>, size: nat, chunksDir: string) returns (paths: seq<string>, written: seq<seq<Byte>>)
    requires size > 0
    ensures written == Chunks(frames, size)
    ensures paths == ChunkNames(chunksDir, |written|)
  {
    paths, written := [], [];
    var pos: nat, i: nat := 0, 0;
    while pos < |frames|
      invariant written + Chunks(frames[Min(pos, |frames|)..], size) == Chunks(frames, size)
      invariant |written| == i && paths == ChunkNames(chunksDir, i)
      decreases |frames| - pos
    {
      var chunk := frames[pos .. Min(pos + size, |frames|)];
      ChunksStep(frames, size, pos);
      written := written + [chunk];
      paths := paths + [ChunkName(chunksDir, i)];
      pos, i := pos + size, i + 1;
    }
    assert frames[Min(pos, |frames|)..] == [];
  }

  /** The chunks the loop writes are the consecutive slices at offsets
      0, size, 2 * size, ..., and there are as many as the logged count. */
  lemma ChunkSlicing(frames: seq<Byte>, size: nat)
    requires size > 0
    ensures |Chunks(frames, size)| == TotalChunks(|frames|, size)
    ensures forall i :: 0 <= i < |Chunks(frames, size)| ==>
              i * size < |frames| && Chunks(frames, size)[i] == frames[i * size .. Min(i * size + size, |frames|)]
  {
    TotalChunksCount(frames, size);
    forall i | 0 <= i < |Chunks(frames, size)|
      ensures i * size < |frames| && Chunks(frames, size)[i] == frames[i * size .. Min(i * size + size, |frames|)]
    {
      ChunkAt(frames, size, i);
    }
  }

  /** Every chunk was transcribed. */
  predicate AllTranscribed(paths: seq<string>, transcribe: string -> Attempt<string>)
  {
    forall i :: 0 <= i < |paths| ==> transcribe(paths[i]).Returned?
  }

  /** The transcripts of the chunks, in chunk order. */
  function Texts(paths: seq<string>, transcribe: string -> Attempt<string>): (texts: seq<string>)
    requires AllTranscribed(paths, transcribe)
    ensures |texts| == |paths|
    ensures forall i :: 0 <= i < |paths| ==> texts[i] == transcribe(paths[i]).value
  {
    seq(|paths|, i requires 0 <= i < |paths| => transcribe(paths[i]).value)
  }

  /** `transcribe_audio`: the chunk transcripts joined by single spaces
      under "text"; `None` when a chunk cannot be transcribed or there are
      no chunks (the transcription file is named after the first chunk). */
  method TranscribeAudio(paths: seq<string>, transcribe: string -> Attempt<string>) returns (r: Transcription)
    ensures r.None? <==> paths == [] || !AllTranscribed(paths, transcribe)
    ensures r.Some? ==> r.value == map["text" := Join(Texts(paths, transcribe), " ")]
  {
    var texts: seq<string> := [];
    var i := 0;
    while i < |paths|
      invariant i <= |paths|
      invariant AllTranscribed(paths[..i], transcribe)
      invariant texts == Texts(paths[..i], transcribe)
    {
      var response := transcribe(paths[i]);
      if response.Raised? {
        return None;
      }
      assert paths[..i + 1] == paths[..i] + [paths[i]];
      texts := texts + [response.value];
      i := i + 1;
    }
    assert paths[..i] == paths;
    var combined := map["text" := Join(texts, " ")];
    if paths == [] {
      return None;
    }
    return Some(combined);
  }

  function TotalLength(texts: seq<string>): nat
  {
    if texts == [] then 0 else |texts[0]| + TotalLength(texts[1..])
  }

  /** The combined transcript holds every chunk transcript and one space
      between each two. */
  lemma {:induction false} TranscriptLength(texts: seq<string>)
    requires texts != []
    ensures |Join(texts, " ")| == TotalLength(texts) + |texts| - 1
  {
    if |texts| > 1 {
      TranscriptLength(texts[1..]);
    } else {
      assert texts[1..] == [];
    }
  }

  /** A combined transcript is something the text analyzer reads: a
      non-empty dictionary with a "text" entry. */
  lemma TranscriptAnalyzable(paths: seq<string>, transcribe: string -> Attempt<string>)
    requires paths != [] && AllTranscribed(paths, transcribe)
    ensures var t: Transcription := Some(map["text" := Join(Texts(paths, transcribe), " ")]);
            IsTruthy(t) && "text" in t.value
            && AnalyzeText(t).sentenceCount >= 1
  {
    var m := map["text" := Join(Texts(paths, transcribe), " ")];
    assert "text" in m;
    assert m != map[];
  }
}
