/**
 * Building the WebVTT track (app.py `index`, STEP 5). For each transcript
 * segment in order, the loop resolves the speaker, allocates or reuses its
 * placeholder and appends three lines: the timing line, the tagged text line
 * and a blank line. The lines, after the header `WEBVTT` and a blank line, are
 * joined with newlines.
 */
module Subtitles {
  import opened Wrappers
  import opened Text
  import opened Timestamp
  import opened Diarization
  import opened Placeholders

  /** A transcript segment from the speech recogniser: times in milliseconds and its text. */
  datatype Segment = Segment(start: nat, end: nat, text: string)

  /** A cue as read back from a track. */
  datatype Cue = Cue(start: nat, end: nat, tag: string, text: string)

  const Header: seq<string> := ["WEBVTT", ""]

  /** The speaker label of every segment, in segment order. */
  function Speakers(segments: seq<Segment>, diarization: Option<seq<Turn>>): seq<string> {
    seq(|segments|, i requires 0 <= i < |segments| =>
      SpeakerForSegment(diarization, segments[i].start, segments[i].end))
  }

  /** The placeholder each segment is tagged with: its speaker's entry in the final map. */
  function Tags(segments: seq<Segment>, diarization: Option<seq<Turn>>): seq<string> {
    var speakers := Speakers(segments, diarization);
    var placeholders := Allocation(speakers);
    seq(|segments|, i requires 0 <= i < |segments| => placeholders[speakers[i]])
  }

  function TimingLine(segment: Segment): string {
    FormatTimestamp(segment.start) + " --> " + FormatTimestamp(segment.end)
  }

  function TagLine(tag: string, text: string): string {
    "[" + tag + "] " + Strip(text)
  }

  function CueBlock(segment: Segment, tag: string): seq<string> {
    [TimingLine(segment), TagLine(tag, segment.text), ""]
  }

  /** The cue block of every segment, in order, each tagged with the matching entry of `tags`. */
  function CueBlocks(segments: seq<Segment>, tags: seq<string>): seq<seq<string>>
    requires |segments| == |tags|
  {
    seq(|segments|, i requires 0 <= i < |segments| => CueBlock(segments[i], tags[i]))
  }

  /** The blocks' lines, one block after the other. */
  function Concat<T>(blocks: seq<seq<T>>): seq<T> {
    if blocks == [] then [] else blocks[0] + Concat(blocks[1..])
  }

  /** The lines of the track: the header, then one cue block per segment. */
  function TrackLines(segments: seq<Segment>, diarization: Option<seq<Turn>>): seq<string> {
    Header + Concat(CueBlocks(segments, Tags(segments, diarization)))
  }

  /** The track text: its lines joined with newlines. */
  function Track(segments: seq<Segment>, diarization: Option<seq<Turn>>): string {
    Join(TrackLines(segments, diarization))
  }

  /** Sequence fact stated once, so the loop proofs need not rediscover it: a prefix grows by one element. */
  lemma PrefixStep<T>(s: seq<T>, i: nat)
    requires i < |s|
    ensures s[..i + 1] == s[..i] + [s[i]]
  {
  }

  /** Sequence fact stated once: concatenation regroups, used where the track is built block by block. */
  lemma Associative<T>(a: seq<T>, b: seq<T>, c: seq<T>)
    ensures (a + b) + c == a + (b + c)
  {
  }

  /** Sequence fact stated once: the full prefix is the sequence, used when a loop ends. */
  lemma PrefixWhole<T>(s: seq<T>)
    ensures s[..|s|] == s
  {
  }

  lemma {:induction false} ConcatAppend<T>(blocks: seq<seq<T>>, block: seq<T>)
    ensures Concat(blocks + [block]) == Concat(blocks) + block
  {
    if blocks == [] {
      assert blocks + [block] == [block];
    } else {
      assert (blocks + [block])[1..] == blocks[1..] + [block];
      ConcatAppend(blocks[1..], block);
    }
  }

  /** Appending the next block to the prefix of the blocks appends its lines. */
  lemma ConcatStep<T>(header: seq<T>, blocks: seq<seq<T>>, i: nat)
    requires i < |blocks|
    ensures header + Concat(blocks[..i + 1]) == header + Concat(blocks[..i]) + blocks[i]
  {
    PrefixStep(blocks, i);
    ConcatAppend(blocks[..i], blocks[i]);
    Associative(header, Concat(blocks[..i]), blocks[i]);
  }

  /**
   * The STEP 5 loop: returns the joined track, the placeholder map and the
   * final counter. The map is the allocation of the segments' speakers in
   * first-seen order, and the counter is one more than the number of
   * distinct speakers.
   */
  method BuildTrack(segments: seq<Segment>, diarization: Option<seq<Turn>>)
    returns (vtt: string, placeholderMap: map<string, string>, counter: nat)
    ensures vtt == Track(segments, diarization)
    ensures placeholderMap == Allocation(Speakers(segments, diarization))
    ensures counter == |FirstSeen(Speakers(segments, diarization))| + 1
  {
    ghost var speakers := Speakers(segments, diarization);
    ghost var tags := Tags(segments, diarization);
    ghost var blocks := CueBlocks(segments, tags);
    var vttLines := Header;
    placeholderMap := map[];
    counter := 1;
    EmptyAllocation();
    for i := 0 to |segments|
      invariant vttLines == Header + Concat(blocks[..i])
      invariant placeholderMap == Allocation(speakers[..i])
      invariant counter == |FirstSeen(speakers[..i])| + 1
    {
      var segment := segments[i];
      var startTs := FormatTimestamp(segment.start);
      var endTs := FormatTimestamp(segment.end);
      var text := Strip(segment.text);
      var origSpeaker := SpeakerForSegment(diarization, segment.start, segment.end);
      assert origSpeaker == speakers[i];
      AllocateNext(speakers, i, placeholderMap, counter);
      if origSpeaker !in placeholderMap {
        placeholderMap := placeholderMap[origSpeaker := PlaceholderName(counter)];
        counter := counter + 1;
      }
      var placeholder := placeholderMap[origSpeaker];
      assert placeholder == tags[i];
      ConcatStep(Header, blocks, i);
      assert [startTs + " --> " + endTs, "[" + placeholder + "] " + text, ""] == blocks[i];
      vttLines := vttLines + [startTs + " --> " + endTs, "[" + placeholder + "] " + text, ""];
    }
    PrefixWhole(blocks);
    PrefixWhole(speakers);
    vtt := Join(vttLines);
  }

  predicate ThreeLines<T>(blocks: seq<seq<T>>) {
    forall k :: 0 <= k < |blocks| ==> |blocks[k]| == 3
  }

  lemma {:induction false} DropStep<T>(s: seq<T>, j: nat)
    requires j < |s|
    ensures s[j..] == [s[j]] + s[j + 1..]
    ensures s[j..][1..] == s[j + 1..]
  {
  }

  lemma {:induction false} ConcatLength<T>(blocks: seq<seq<T>>)
    requires ThreeLines(blocks)
    ensures |Concat(blocks)| == 3 * |blocks|
  {
    if blocks != [] {
      ConcatLength(blocks[1..]);
    }
  }

  /** Line `3 * k + j` of three-line blocks is line `j` of block `k`. */
  lemma {:induction false} ConcatAt<T>(blocks: seq<seq<T>>, k: nat, j: nat)
    requires ThreeLines(blocks) && k < |blocks| && j < 3
    ensures |Concat(blocks)| == 3 * |blocks|
    ensures Concat(blocks)[3 * k + j] == blocks[k][j]
  {
    ConcatLength(blocks);
    if k > 0 {
      ConcatAt(blocks[1..], k - 1, j);
    }
  }

  /** Sequence fact stated once: indexing past a header reaches the body, kept generic so no line is unfolded. */
  lemma AfterHeader<T>(header: seq<T>, body: seq<T>, n: nat)
    requires n < |body|
    ensures (header + body)[|header| + n] == body[n]
  {
  }

  /** The lines from block `j` on are block `j` followed by the lines from block `j + 1` on. */
  lemma ConcatDrop<T>(blocks: seq<seq<T>>, j: nat)
    requires j < |blocks|
    ensures Concat(blocks[j..]) == blocks[j] + Concat(blocks[j + 1..])
  {
    DropStep(blocks, j);
  }

  lemma CueBlocksShape(segments: seq<Segment>, tags: seq<string>)
    requires |segments| == |tags|
    ensures ThreeLines(CueBlocks(segments, tags))
  {
  }

  /** The cue lines of `segments` tagged with `tags`: three per segment, in segment order. */
  lemma {:induction false} CueLinesShape(segments: seq<Segment>, tags: seq<string>)
    requires |segments| == |tags|
    ensures var lines := Header + Concat(CueBlocks(segments, tags));
      && |lines| == 2 + 3 * |segments|
      && lines[0] == "WEBVTT" && lines[1] == ""
      && forall i :: 0 <= i < |segments| ==>
           && lines[2 + 3 * i] == TimingLine(segments[i])
           && lines[3 + 3 * i] == TagLine(tags[i], segments[i].text)
           && lines[4 + 3 * i] == ""
  {
    var blocks := CueBlocks(segments, tags);
    CueBlocksShape(segments, tags);
    ConcatLength(blocks);
    var lines := Header + Concat(blocks);
    forall i | 0 <= i < |segments|
      ensures && lines[2 + 3 * i] == TimingLine(segments[i])
              && lines[3 + 3 * i] == TagLine(tags[i], segments[i].text)
              && lines[4 + 3 * i] == ""
    {
      CueLinesOfBlock(segments, tags, i);
    }
  }

  lemma CueLinesOfBlock(segments: seq<Segment>, tags: seq<string>, i: nat)
    requires |segments| == |tags| && i < |segments|
    ensures var lines := Header + Concat(CueBlocks(segments, tags));
      && |lines| == 2 + 3 * |segments|
      && lines[2 + 3 * i] == TimingLine(segments[i])
      && lines[3 + 3 * i] == TagLine(tags[i], segments[i].text)
      && lines[4 + 3 * i] == ""
  {
    var blocks := CueBlocks(segments, tags);
    CueBlocksShape(segments, tags);
    var timing, tagged := TimingLine(segments[i]), TagLine(tags[i], segments[i].text);
    assert blocks[i] == [timing, tagged, ""];
    BlockLines(Header, blocks, i, timing, tagged, "");
  }

  /** The three lines of block `k`, after a header, in the lines of three-line blocks. */
  lemma BlockLines<T>(header: seq<T>, blocks: seq<seq<T>>, k: nat, a: T, b: T, c: T)
    requires ThreeLines(blocks) && k < |blocks| && blocks[k] == [a, b, c]
    ensures var lines := header + Concat(blocks);
      && |lines| == |header| + 3 * |blocks|
      && lines[|header| + 3 * k] == a && lines[|header| + 3 * k + 1] == b && lines[|header| + 3 * k + 2] == c
  {
    BlockLine(header, blocks, k, 0);
    BlockLine(header, blocks, k, 1);
    BlockLine(header, blocks, k, 2);
  }

  /** Line `j` of block `k`, after a header, in the lines of three-line blocks. */
  lemma BlockLine<T>(header: seq<T>, blocks: seq<seq<T>>, k: nat, j: nat)
    requires ThreeLines(blocks) && k < |blocks| && j < 3
    ensures |header + Concat(blocks)| == |header| + 3 * |blocks|
    ensures (header + Concat(blocks))[|header| + 3 * k + j] == blocks[k][j]
  {
    ConcatAt(blocks, k, j);
    AfterHeader(header, Concat(blocks), 3 * k + j);
  }

  /**
   * The exact grammar of the track: `WEBVTT`, a blank line, then for every
   * segment, in input order, `start --> end`, `[placeholder] stripped text`
   * and a blank line; `2 + 3 * |segments|` lines in all, nothing dropped or
   * merged, and a segment with empty text still has its cue.
   */
  lemma TrackShape(segments: seq<Segment>, diarization: Option<seq<Turn>>)
    ensures var lines, tags := TrackLines(segments, diarization), Tags(segments, diarization);
      && |lines| == 2 + 3 * |segments|
      && lines[0] == "WEBVTT" && lines[1] == ""
      && forall i :: 0 <= i < |segments| ==>
           && lines[2 + 3 * i] == FormatTimestamp(segments[i].start) + " --> " + FormatTimestamp(segments[i].end)
           && lines[3 + 3 * i] == "[" + tags[i] + "] " + Strip(segments[i].text)
           && lines[4 + 3 * i] == ""
  {
    CueLinesShape(segments, Tags(segments, diarization));
  }

  /**
   * Two cues carry the same placeholder exactly when their segments were
   * attributed to the same speaker, and the first cue carries `SPEAKER_01`.
   */
  lemma TagsFollowSpeakers(segments: seq<Segment>, diarization: Option<seq<Turn>>, i: nat, j: nat)
    requires i < |segments| && j < |segments|
    ensures var speakers, tags := Speakers(segments, diarization), Tags(segments, diarization);
      (tags[i] == tags[j] <==> speakers[i] == speakers[j]) && tags[0] == "SPEAKER_01"
  {
    var speakers, tags := Speakers(segments, diarization), Tags(segments, diarization);
    if speakers[i] != speakers[j] {
      AllocationInjective(speakers, speakers[i], speakers[j]);
    }
    FirstSpeakerGetsOne(speakers);
  }

  /**
   * Without diarization (or with no turns at all) every segment is
   * `Unknown`: the map is `{Unknown: SPEAKER_01}` and every cue is tagged
   * `[SPEAKER_01]`.
   */
  lemma NoDiarization(segments: seq<Segment>, diarization: Option<seq<Turn>>)
    requires |segments| > 0
    requires diarization == None || diarization == Some([])
    ensures Allocation(Speakers(segments, diarization)) == map[Unknown := "SPEAKER_01"]
    ensures forall i :: 0 <= i < |segments| ==> Tags(segments, diarization)[i] == "SPEAKER_01"
  {
    SingleSpeaker(Speakers(segments, diarization), Unknown);
  }

  /** One segment of two seconds saying "hello", without diarization. */
  lemma SingleCueTrack()
    ensures Track([Segment(0, 2000, "hello")], None)
         == "WEBVTT" + "\n" + "" + "\n" + "00:00:00.000 --> 00:00:02.000" + "\n" + "[SPEAKER_01] hello" + "\n" + ""
  {
    SingleCueLines();
    JoinFive("WEBVTT", "", "00:00:00.000 --> 00:00:02.000", "[SPEAKER_01] hello", "");
  }

  lemma SingleCueLines()
    ensures TrackLines([Segment(0, 2000, "hello")], None)
         == ["WEBVTT", "", "00:00:00.000 --> 00:00:02.000", "[SPEAKER_01] hello", ""]
  {
    var segments := [Segment(0, 2000, "hello")];
    assert Tags(segments, None) == ["SPEAKER_01"] by {
      NoDiarization(segments, None);
    }
    SingleCueBlock();
  }

  lemma SingleCueBlock()
    ensures Header + Concat(CueBlocks([Segment(0, 2000, "hello")], ["SPEAKER_01"]))
         == ["WEBVTT", "", "00:00:00.000 --> 00:00:02.000", "[SPEAKER_01] hello", ""]
  {
    var segments, tags := [Segment(0, 2000, "hello")], ["SPEAKER_01"];
    CueLinesShape(segments, tags);
    SingleCueText();
    var lines := Header + Concat(CueBlocks(segments, tags));
    assert |lines| == 5 && lines[0] == "WEBVTT" && lines[1] == "" && lines[4] == "";
    assert lines[2] == "00:00:00.000 --> 00:00:02.000";
    assert lines[3] == "[SPEAKER_01] hello";
  }

  lemma SingleCueText()
    ensures TimingLine(Segment(0, 2000, "hello")) == "00:00:00.000 --> 00:00:02.000"
    ensures TagLine("SPEAKER_01", "hello") == "[SPEAKER_01] hello"
  {
    ZeroTimestamp();
    TwoSeconds();
    assert StripStart("hello") == 0 && StripEnd("hello", 0) == 5;
  }

  lemma TwoSeconds()
    ensures FormatTimestamp(2000) == "00:00:02.000"
  {
  }

  lemma JoinFive(a: string, b: string, c: string, d: string, e: string)
    ensures Join([a, b, c, d, e]) == a + "\n" + b + "\n" + c + "\n" + d + "\n" + e
  {
    var lines := [a, b, c, d, e];
    assert lines[1..] == [b, c, d, e] && lines[1..][1..] == [c, d, e];
    assert lines[1..][1..][1..] == [d, e] && lines[1..][1..][1..][1..] == [e];
    var de := d + "\n" + e;
    assert Join([d, e]) == de;
    var cde := c + "\n" + de;
    assert Join([c, d, e]) == cde;
    var bcde := b + "\n" + cde;
    assert Join([b, c, d, e]) == bcde;
    assert Join(lines) == a + "\n" + bcde;
    assert a + "\n" + bcde == a + "\n" + b + "\n" + c + "\n" + d + "\n" + e;
  }

  // Reading a track back.

  /** `start --> end`: the two times of a timing line. */
  function ParseTimingLine(line: string): Option<(nat, nat)> {
    var k := FirstIndex(line, ' ');
    if |line| < k + 5 || line[k..k + 5] != " --> " then None
    else match (ParseTimestamp(line[..k]), ParseTimestamp(line[k + 5..]))
      case (Some(a), Some(b)) => Some((a, b))
      case _ => None
  }

  /** `[tag] text`: the tag up to the first `]`, and the text after the space. */
  function ParseTagLine(line: string): Option<(string, string)> {
    if line == [] || line[0] != '[' then None
    else
      var j := FirstIndex(line, ']');
      if |line| < j + 2 || line[j + 1] != ' ' then None
      else Some((line[1..j], line[j + 2..]))
  }

  function ParseCues(lines: seq<string>): Option<seq<Cue>>
    decreases |lines|
  {
    if lines == [] then Some([])
    else if |lines| < 3 || lines[2] != "" then None
    else match (ParseTimingLine(lines[0]), ParseTagLine(lines[1]), ParseCues(lines[3..]))
      case (Some(times), Some(tagged), Some(rest)) => Some([Cue(times.0, times.1, tagged.0, tagged.1)] + rest)
      case _ => None
  }

  /** The cues of a track's lines, or `None` when the lines do not follow the track grammar. */
  function ParseTrack(lines: seq<string>): Option<seq<Cue>> {
    if |lines| < 2 || lines[0] != "WEBVTT" || lines[1] != "" then None
    else ParseCues(lines[2..])
  }

  /** What the track promises to hold: one cue per segment, with its times, tag and stripped text. */
  function CuesOf(segments: seq<Segment>, tags: seq<string>): seq<Cue>
    requires |segments| == |tags|
  {
    seq(|segments|, i requires 0 <= i < |segments| =>
      Cue(segments[i].start, segments[i].end, tags[i], Strip(segments[i].text)))
  }

  /** The three pieces of `a + m + b`, recovered by slicing. */
  lemma Pieces<T>(a: seq<T>, m: seq<T>, b: seq<T>)
    ensures var s := a + m + b;
      && |s| == |a| + |m| + |b|
      && s[..|a|] == a && s[|a|..|a| + |m|] == m && s[|a| + |m|..] == b
      && (|m| > 0 ==> s[|a|] == m[0])
  {
  }

  /** Sequence fact stated once: dropping the first element of `[x] + s` gives `s`, used to read past an opening `[`. */
  lemma Tail<T>(x: T, s: seq<T>)
    ensures ([x] + s)[1..] == s
  {
  }

  lemma SliceOfPrefix<T>(s: seq<T>, lo: nat, hi: nat)
    requires lo <= hi <= |s|
    ensures s[lo..hi] == s[..hi][lo..]
  {
  }

  lemma ParseTimingLineOf(segment: Segment)
    ensures ParseTimingLine(TimingLine(segment)) == Some((segment.start, segment.end))
  {
    var a, b := FormatTimestamp(segment.start), FormatTimestamp(segment.end);
    assert ' ' !in a by { TimestampAlphabet(segment.start); }
    var line := TimingLine(segment);
    Pieces(a, " --> ", b);
    FirstIndexAt(line, ' ', |a|);
    FormatThenParse(segment.start);
    FormatThenParse(segment.end);
  }

  lemma ParseTagLineOf(tag: string, text: string)
    requires ']' !in tag
    ensures ParseTagLine(TagLine(tag, text)) == Some((tag, Strip(text)))
  {
    var line := TagLine(tag, text);
    var head := "[" + tag;
    Pieces(head, "] ", Strip(text));
    assert ']' !in head;
    FirstIndexAt(line, ']', |head|);
    SliceOfPrefix(line, 1, |head|);
    Tail('[', tag);
  }

  /** The cue blocks from segment `j` on read back as the cues from segment `j` on. */
  lemma {:induction false} ParseCuesFrom(segments: seq<Segment>, tags: seq<string>, j: nat)
    requires |segments| == |tags| && j <= |segments|
    requires forall i :: 0 <= i < |tags| ==> ']' !in tags[i]
    ensures ParseCues(Concat(CueBlocks(segments, tags)[j..])) == Some(CuesOf(segments, tags)[j..])
    decreases |segments| - j
  {
    var blocks, cues := CueBlocks(segments, tags), CuesOf(segments, tags);
    if j < |segments| {
      var block, rest := blocks[j], Concat(blocks[j + 1..]);
      assert block == CueBlock(segments[j], tags[j]);
      ConcatDrop(blocks, j);
      var lines := block + rest;
      assert lines[0] == TimingLine(segments[j]) && lines[1] == TagLine(tags[j], segments[j].text) && lines[2] == "";
      assert lines[3..] == rest;
      ParseTimingLineOf(segments[j]);
      ParseTagLineOf(tags[j], segments[j].text);
      ParseCuesFrom(segments, tags, j + 1);
      assert ParseCues(lines) == Some([cues[j]] + cues[j + 1..]);
      DropStep(cues, j);
    } else {
      assert blocks[j..] == [] && cues[j..] == [];
    }
  }

  /** Every tag is a placeholder name: no bracket and no newline in it. */
  lemma TagsArePlain(segments: seq<Segment>, diarization: Option<seq<Turn>>, i: nat)
    requires i < |segments|
    ensures '[' !in Tags(segments, diarization)[i] && ']' !in Tags(segments, diarization)[i]
    ensures '\n' !in Tags(segments, diarization)[i]
  {
    var speakers := Speakers(segments, diarization);
    assert speakers[i] in FirstSeen(speakers);
    PlaceholderNamePlain(Numbering(speakers)[speakers[i]]);
  }

  /** Cue lines read back as their cues when no tag holds a `]`. */
  lemma CueLinesParseBack(segments: seq<Segment>, tags: seq<string>)
    requires |segments| == |tags|
    requires forall i :: 0 <= i < |tags| ==> ']' !in tags[i]
    ensures ParseTrack(Header + Concat(CueBlocks(segments, tags))) == Some(CuesOf(segments, tags))
  {
    ParseCuesFrom(segments, tags, 0);
    var blocks := CueBlocks(segments, tags);
    assert blocks[0..] == blocks;
    assert CuesOf(segments, tags)[0..] == CuesOf(segments, tags);
    assert (Header + Concat(blocks))[2..] == Concat(blocks);
  }

  /** Every placeholder tag of a track is plain. */
  lemma AllTagsPlain(segments: seq<Segment>, diarization: Option<seq<Turn>>)
    ensures forall i :: 0 <= i < |segments| ==>
      '[' !in Tags(segments, diarization)[i] && ']' !in Tags(segments, diarization)[i]
      && '\n' !in Tags(segments, diarization)[i]
  {
    forall i | 0 <= i < |segments|
      ensures '[' !in Tags(segments, diarization)[i] && ']' !in Tags(segments, diarization)[i]
      ensures '\n' !in Tags(segments, diarization)[i]
    {
      TagsArePlain(segments, diarization, i);
    }
  }

  /**
   * The track's lines read back as the segments' cues, in input order, with
   * their times, placeholders and stripped texts.
   */
  lemma TrackLinesParseBack(segments: seq<Segment>, diarization: Option<seq<Turn>>)
    ensures ParseTrack(TrackLines(segments, diarization)) == Some(CuesOf(segments, Tags(segments, diarization)))
  {
    AllTagsPlain(segments, diarization);
    CueLinesParseBack(segments, Tags(segments, diarization));
  }

  /** A timing line holds no newline. */
  lemma TimingLineNoNewline(segment: Segment)
    ensures '\n' !in TimingLine(segment)
  {
    var a, b := FormatTimestamp(segment.start), FormatTimestamp(segment.end);
    assert '\n' !in a by { TimestampAlphabet(segment.start); }
    assert '\n' !in b by { TimestampAlphabet(segment.end); }
  }

  /** A timing line holds no `[`, so no bracketed tag occurs in it. */
  lemma TimingLineNoBracket(segment: Segment)
    ensures '[' !in TimingLine(segment)
  {
    var a, b := FormatTimestamp(segment.start), FormatTimestamp(segment.end);
    assert '[' !in a by { TimestampAlphabet(segment.start); }
    assert '[' !in b by { TimestampAlphabet(segment.end); }
  }

  /** A tag line holds no newline when neither its tag nor its text does. */
  lemma TagLineNoNewline(tag: string, text: string)
    requires '\n' !in tag && '\n' !in text
    ensures '\n' !in TagLine(tag, text)
  {
    if '\n' in Strip(text) {
      StripKeeps(text, '\n');
    }
  }

  /** No line of the cue blocks holds a newline when no tag and no segment text does. */
  lemma CueLinesNoNewline(segments: seq<Segment>, tags: seq<string>, k: nat, j: nat)
    requires |segments| == |tags| && k < |segments| && j < 3
    requires '\n' !in tags[k] && '\n' !in segments[k].text
    ensures |Concat(CueBlocks(segments, tags))| == 3 * |segments|
    ensures '\n' !in Concat(CueBlocks(segments, tags))[3 * k + j]
  {
    var blocks := CueBlocks(segments, tags);
    CueBlocksShape(segments, tags);
    ConcatAt(blocks, k, j);
    TimingLineNoNewline(segments[k]);
    TagLineNoNewline(tags[k], segments[k].text);
    assert blocks[k] == CueBlock(segments[k], tags[k]);
  }

  /** Splitting joined cue lines on newlines gives them back, and they read back as their cues. */
  lemma CueTextRoundTrip(segments: seq<Segment>, tags: seq<string>)
    requires |segments| == |tags|
    requires forall i :: 0 <= i < |tags| ==> ']' !in tags[i] && '\n' !in tags[i] && '\n' !in segments[i].text
    ensures |Split(Join(Header + Concat(CueBlocks(segments, tags))))| == 2 + 3 * |segments|
    ensures ParseTrack(Split(Join(Header + Concat(CueBlocks(segments, tags))))) == Some(CuesOf(segments, tags))
  {
    var cueLines := Concat(CueBlocks(segments, tags));
    var lines := Header + cueLines;
    CueBlocksShape(segments, tags);
    ConcatLength(CueBlocks(segments, tags));
    forall l | 0 <= l < |lines| ensures '\n' !in lines[l] {
      if l >= 2 {
        var k, j := (l - 2) / 3, (l - 2) % 3;
        assert l - 2 == 3 * k + j;
        AfterHeader(Header, cueLines, l - 2);
        CueLinesNoNewline(segments, tags, k, j);
      }
    }
    SplitJoin(lines);
    CueLinesParseBack(segments, tags);
  }

  /**
   * Round trip of the track text: when no segment text holds a newline,
   * splitting the track on newlines gives back `2 + 3 * |segments|` lines
   * that read back as one cue per segment, in input order.
   */
  lemma TrackRoundTrip(segments: seq<Segment>, diarization: Option<seq<Turn>>)
    requires forall i :: 0 <= i < |segments| ==> '\n' !in segments[i].text
    ensures |Split(Track(segments, diarization))| == 2 + 3 * |segments|
    ensures ParseTrack(Split(Track(segments, diarization))) == Some(CuesOf(segments, Tags(segments, diarization)))
  {
    AllTagsPlain(segments, diarization);
    CueTextRoundTrip(segments, Tags(segments, diarization));
  }
}
