/**
 * Renaming the placeholders of a stored track (app.py `update_speakers`).
 * The submitted form is a sequence of `(field, value)` pairs in form order.
 * A first loop builds `new_mapping`, a Python dict, which keeps its keys in
 * insertion order; a second loop replaces `[key]` by `[value]` in the track,
 * one pair at a time in that order, each replacement working on the text the
 * previous ones produced.
 */
module Rename {
  import opened Wrappers
  import opened Text
  import opened Diarization
  import opened Placeholders
  import opened Subtitles

  /** A Python dict from strings to strings: its entries in insertion order. */
  type Dict = seq<(string, string)>

  predicate HasKey(d: Dict, k: string) {
    exists i :: 0 <= i < |d| && d[i].0 == k
  }

  predicate DistinctKeys(d: Dict) {
    forall i, j :: 0 <= i < j < |d| ==> d[i].0 != d[j].0
  }

  /** `d[k]`, or `None` when `k` is not a key. */
  function Lookup(d: Dict, k: string): (r: Option<string>)
    ensures r.None? <==> !HasKey(d, k)
    ensures r.Some? ==> exists i :: 0 <= i < |d| && d[i] == (k, r.value)
  {
    if d == [] then None
    else if d[0].0 == k then Some(d[0].1)
    else Lookup(d[1..], k)
  }

  /**
   * `d[k] = v`: an existing key keeps its place and takes the new value; a
   * new key goes at the end.
   */
  function DictPut(d: Dict, k: string, v: string): (r: Dict)
    requires DistinctKeys(d)
    ensures DistinctKeys(r)
    ensures |r| == if HasKey(d, k) then |d| else |d| + 1
    ensures forall i :: 0 <= i < |d| ==> r[i] == if d[i].0 == k then (k, v) else d[i]
    ensures !HasKey(d, k) ==> r[|d|] == (k, v)
  {
    if d == [] then [(k, v)]
    else if d[0].0 == k then [(k, v)] + d[1..]
    else [d[0]] + DictPut(d[1..], k, v)
  }

  /** The keys after `d[k] = v` are those of `d` and `k`. */
  lemma DictPutKeys(d: Dict, k: string, v: string, x: string)
    requires DistinctKeys(d)
    ensures HasKey(DictPut(d, k, v), x) <==> HasKey(d, x) || x == k
  {
    var r := DictPut(d, k, v);
    if HasKey(d, x) {
      var i := KeyIndex(d, x);
      assert r[i].0 == x;
    }
    if x == k && !HasKey(d, k) {
      assert r[|d|].0 == k;
    }
  }

  /** Position of the entry with key `k`. */
  function KeyIndex(d: Dict, k: string): (i: nat)
    requires HasKey(d, k)
    ensures i < |d| && d[i].0 == k
  {
    if d[0].0 == k then 0 else 1 + KeyIndex(d[1..], k)
  }

  /** A form value stripped of whitespace, or the field's own name when that leaves nothing. */
  function Resolve(key: string, value: string): string {
    if Strip(value) != "" then Strip(value) else key
  }

  /** `new_mapping` after the first loop has seen every pair of `form`. */
  function NewMapping(form: seq<(string, string)>): (d: Dict)
    ensures DistinctKeys(d)
  {
    if form == [] then []
    else
      var (key, value) := form[|form| - 1];
      DictPut(NewMapping(form[..|form| - 1]), key, Resolve(key, value))
  }

  /** The form's fields, in form order. */
  function Fields(form: seq<(string, string)>): (fields: seq<string>)
    ensures |fields| == |form|
  {
    seq(|form|, i requires 0 <= i < |form| => form[i].0)
  }

  /** The value the last pair with field `k` carries, if any pair does. */
  function LastValue(form: seq<(string, string)>, k: string): (r: Option<string>)
    ensures r.None? <==> forall i :: 0 <= i < |form| ==> form[i].0 != k
  {
    if form == [] then None
    else if form[|form| - 1].0 == k then Some(form[|form| - 1].1)
    else LastValue(form[..|form| - 1], k)
  }

  /** The bracketed token a placeholder or name appears as in a track. */
  function Token(name: string): (t: string)
    ensures |t| == |name| + 2
  {
    "[" + name + "]"
  }

  /** The track after replacing `[key]` by `[value]` for every entry of `mapping`, in order. */
  function ApplyRenames(vtt: string, mapping: Dict): string
    decreases |mapping|
  {
    if mapping == [] then vtt
    else ApplyRenames(ReplaceAll(vtt, Token(mapping[0].0), Token(mapping[0].1)), mapping[1..])
  }

  /** The first loop of `update_speakers`: builds `new_mapping` from the form, pair by pair. */
  method BuildMapping(form: seq<(string, string)>) returns (mapping: Dict)
    ensures mapping == NewMapping(form)
  {
    mapping := [];
    for i := 0 to |form|
      invariant mapping == NewMapping(form[..i])
    {
      var (key, value) := form[i];
      var stripped := Strip(value);
      NewMappingStep(form, i);
      mapping := DictPut(mapping, key, if stripped != "" then stripped else key);
    }
    assert form[..|form|] == form;
  }

  /** Seeing pair `i` of the form puts its resolved value under its field. */
  lemma NewMappingStep(form: seq<(string, string)>, i: nat)
    requires i < |form|
    ensures NewMapping(form[..i + 1]) == DictPut(NewMapping(form[..i]), form[i].0, Resolve(form[i].0, form[i].1))
  {
    assert form[..i + 1][..i] == form[..i];
  }

  /** The second loop of `update_speakers`: applies the replacements one after another. */
  method RenameTrack(vtt: string, mapping: Dict) returns (updated: string)
    ensures updated == ApplyRenames(vtt, mapping)
  {
    updated := vtt;
    for i := 0 to |mapping|
      invariant ApplyRenames(updated, mapping[i..]) == ApplyRenames(vtt, mapping)
    {
      var (placeholder, newName) := mapping[i];
      assert mapping[i..][1..] == mapping[i + 1..];
      updated := ReplaceAll(updated, "[" + placeholder + "]", "[" + newName + "]");
    }
  }

  /** A blank value keeps the field's name; any other value is used stripped, and is not blank. */
  lemma ResolveCases(key: string, value: string)
    ensures (forall k :: 0 <= k < |value| ==> IsSpace(value[k])) ==> Resolve(key, value) == key
    ensures !(forall k :: 0 <= k < |value| ==> IsSpace(value[k])) ==>
      Resolve(key, value) == Strip(value) && Resolve(key, value) != ""
  {
    StripBlank(value);
  }

  /** The keys of `new_mapping` are the form's fields. */
  lemma {:induction false} NewMappingKeys(form: seq<(string, string)>, k: string)
    ensures HasKey(NewMapping(form), k) <==> k in Fields(form)
  {
    if form != [] {
      var init, key, value := form[..|form| - 1], form[|form| - 1].0, form[|form| - 1].1;
      NewMappingKeys(init, k);
      DictPutKeys(NewMapping(init), key, Resolve(key, value), k);
      FieldsStep(form);
    }
  }

  lemma FieldsStep(form: seq<(string, string)>)
    requires form != []
    ensures Fields(form) == Fields(form[..|form| - 1]) + [form[|form| - 1].0]
  {
    var init := form[..|form| - 1];
    assert forall i :: 0 <= i < |init| ==> Fields(form)[i] == Fields(init)[i];
  }

  /**
   * `new_mapping[k]` is the resolved value of the last pair with field `k`,
   * and `k` is missing exactly when no pair names it.
   */
  lemma {:induction false} NewMappingLookup(form: seq<(string, string)>, k: string)
    ensures Lookup(NewMapping(form), k) ==
      match LastValue(form, k)
      case None => None
      case Some(v) => Some(Resolve(k, v))
  {
    if form != [] {
      var init, key, value := form[..|form| - 1], form[|form| - 1].0, form[|form| - 1].1;
      NewMappingLookup(init, k);
      var before := NewMapping(init);
      var after := NewMapping(form);
      assert after == DictPut(before, key, Resolve(key, value));
      if key == k {
        DistinctLookup(after, k, if HasKey(before, k) then KeyIndex(before, k) else |before|);
      } else if HasKey(before, k) {
        var j := KeyIndex(before, k);
        DistinctLookup(before, k, j);
        DistinctLookup(after, k, j);
      } else {
        DictPutKeys(before, key, Resolve(key, value), k);
      }
    }
  }

  /** In a dict without repeated keys, the entry with key `k` is the one `Lookup` finds. */
  lemma {:induction false} DistinctLookup(d: Dict, k: string, i: nat)
    requires DistinctKeys(d) && i < |d| && d[i].0 == k
    ensures Lookup(d, k) == Some(d[i].1)
  {
    if i > 0 {
      DistinctLookup(d[1..], k, i - 1);
    }
  }

  /** Renaming every placeholder to itself leaves the track as it was. */
  lemma {:induction false} IdentityRenames(vtt: string, mapping: Dict)
    requires forall i :: 0 <= i < |mapping| ==> mapping[i].0 == mapping[i].1
    ensures ApplyRenames(vtt, mapping) == vtt
    decreases |mapping|
  {
    if mapping != [] {
      ReplaceBySelf(vtt, Token(mapping[0].0));
      IdentityRenames(vtt, mapping[1..]);
    }
  }

  /** A form whose every value is blank maps every field to itself. */
  lemma {:induction false} BlankFormIsIdentity(form: seq<(string, string)>)
    requires forall i :: 0 <= i < |form| ==> Strip(form[i].1) == ""
    ensures forall i :: 0 <= i < |NewMapping(form)| ==> NewMapping(form)[i].0 == NewMapping(form)[i].1
  {
    if form != [] {
      BlankFormIsIdentity(form[..|form| - 1]);
    }
  }

  /** Submitting the form with every field left blank leaves the track unchanged. */
  lemma BlankFormKeepsTrack(vtt: string, form: seq<(string, string)>)
    requires forall i :: 0 <= i < |form| ==> Strip(form[i].1) == ""
    ensures ApplyRenames(vtt, NewMapping(form)) == vtt
  {
    BlankFormIsIdentity(form);
    IdentityRenames(vtt, NewMapping(form));
  }

  /** Placeholders that do not occur in the track (as `[key]`) leave it unchanged. */
  lemma {:induction false} AbsentRenames(vtt: string, mapping: Dict)
    requires forall i :: 0 <= i < |mapping| ==> !Occurs(vtt, Token(mapping[i].0))
    ensures ApplyRenames(vtt, mapping) == vtt
    decreases |mapping|
  {
    if mapping != [] {
      ReplaceAbsent(vtt, Token(mapping[0].0), Token(mapping[0].1));
      AbsentRenames(vtt, mapping[1..]);
    }
  }

  /** One rename on a cue line: the tag changes, the text after it does not. */
  lemma RenameOneCue()
    ensures ApplyRenames("[SPEAKER_01] hi", [("SPEAKER_01", "Alice")]) == "[Alice] hi"
  {
    assert ReplaceAll(" hi", "[SPEAKER_01]", "[Alice]") == " hi";
    assert ("[SPEAKER_01] hi")[12..] == " hi";
  }

  /**
   * Pairs apply one after another to the text the earlier ones produced, so
   * a later pair also renames what an earlier pair wrote: renaming `A` to
   * `B` and then `B` to `C` turns `[A]` into `[C]`.
   */
  lemma RenamesChain()
    ensures ApplyRenames("[A]", [("A", "B"), ("B", "C")]) == "[C]"
  {
    assert ReplaceAll("[A]", "[A]", "[B]") == "[B]" by {
      assert ("[A]")[3..] == "";
    }
    assert ReplaceAll("[B]", "[B]", "[C]") == "[C]" by {
      assert ("[B]")[3..] == "";
    }
    var m := [("A", "B"), ("B", "C")];
    assert Token("A") == "[A]" && Token("B") == "[B]" && Token("C") == "[C]";
    assert m[1..] == [("B", "C")] && m[1..][1..] == [];
    assert ApplyRenames("[A]", m) == ApplyRenames("[B]", m[1..]);
    assert ApplyRenames("[B]", m[1..]) == ApplyRenames("[C]", []);
  }

  /** `[tag]` holds no `[p]` for another `p`: its only brackets are its first and last characters. */
  lemma TokenNotInToken(tag: string, p: string, n: string)
    requires '[' !in tag && ']' !in tag && ']' !in p && tag != p
    ensures ReplaceAll(Token(tag), Token(p), Token(n)) == Token(tag)
  {
    var t, pat := ['['] + (tag + "]"), Token(p);
    assert Token(tag) == t;
    Tail('[', tag + "]");
    if |t| >= |pat| {
      assert t[..|pat|] != pat by {
        if |p| < |tag| {
          assert t[..|pat|][|p| + 1] == tag[|p|];
        } else {
          var k :| 0 <= k < |p| && p[k] != tag[k];
          assert t[..|pat|][k + 1] == tag[k];
        }
      }
      ReplaceWithoutFirst(t[1..], pat, Token(n));
      assert [t[0]] + t[1..] == t;
    }
  }

  /**
   * Renaming `p` to `n` on a cue's text line retags it when its tag is `p`
   * and leaves it as it was otherwise, as long as the cue's text does not
   * itself hold `[p]`.
   */
  lemma RenameTagLine(tag: string, p: string, n: string, text: string)
    requires '[' !in tag && ']' !in tag && ']' !in p
    requires !Occurs(Strip(text), Token(p))
    ensures ReplaceAll(TagLine(tag, text), Token(p), Token(n)) == TagLine(if tag == p then n else tag, text)
  {
    var pat, rest := Token(p), " " + Strip(text);
    assert TagLine(tag, text) == Token(tag) + rest;
    assert TagLine(n, text) == Token(n) + rest;
    forall i | 0 <= i < |Token(tag)| < i + |pat|
      ensures !OccursAt(Token(tag) + rest, pat, i)
    {
      var s, last := Token(tag) + rest, |tag| + 1;
      if i + |pat| <= |s| {
        assert s[i..i + |pat|][last - i] == ']';
        assert pat[last - i] != ']';
      }
    }
    ReplaceSplit(Token(tag), rest, pat, Token(n));
    ReplaceSkip(' ', Strip(text), pat, Token(n));
    ReplaceAbsent(Strip(text), pat, Token(n));
    if tag == p {
      ReplaceWhole(pat, Token(n));
    } else {
      TokenNotInToken(tag, p, n);
    }
  }

  /** The tags after renaming `p` to `n`: each `p` becomes `n`, and every other tag stays. */
  function Retag(tags: seq<string>, p: string, n: string): seq<string> {
    seq(|tags|, i requires 0 <= i < |tags| => if tags[i] == p then n else tags[i])
  }

  /**
   * The lines of cue `k`, with `[p]` renamed, are those of the cue under
   * `renamedTags`, whose tag `k` is `n` where the old one was `p`: the
   * timing and blank lines hold no `[` and stay, and the text line is retagged.
   */
  lemma RenameCueBlock(segments: seq<Segment>, tags: seq<string>, renamedTags: seq<string>,
                       p: string, n: string, k: nat)
    requires |segments| == |tags| == |renamedTags| && k < |segments|
    requires renamedTags[k] == if tags[k] == p then n else tags[k]
    requires '[' !in tags[k] && ']' !in tags[k] && ']' !in p
    requires !Occurs(Strip(segments[k].text), Token(p))
    ensures var lines := Header + Concat(CueBlocks(segments, tags));
      var renamed := Header + Concat(CueBlocks(segments, renamedTags));
      && |lines| == |renamed| == 2 + 3 * |segments|
      && ReplaceAll(lines[2 + 3 * k], Token(p), Token(n)) == renamed[2 + 3 * k]
      && ReplaceAll(lines[3 + 3 * k], Token(p), Token(n)) == renamed[3 + 3 * k]
      && ReplaceAll(lines[4 + 3 * k], Token(p), Token(n)) == renamed[4 + 3 * k]
  {
    var lines := Header + Concat(CueBlocks(segments, tags));
    var renamed := Header + Concat(CueBlocks(segments, renamedTags));
    var text := segments[k].text;
    var timing, tagged, retagged := TimingLine(segments[k]), TagLine(tags[k], text), TagLine(renamedTags[k], text);
    assert && |lines| == |renamed| == 2 + 3 * |segments|
           && lines[2 + 3 * k] == renamed[2 + 3 * k] == timing
           && lines[3 + 3 * k] == tagged && renamed[3 + 3 * k] == retagged
           && lines[4 + 3 * k] == renamed[4 + 3 * k] == "" by {
      CueLinesOfBlock(segments, tags, k);
      CueLinesOfBlock(segments, renamedTags, k);
    }
    assert ReplaceAll(timing, Token(p), Token(n)) == timing by {
      TimingLineNoBracket(segments[k]);
      ReplaceWithoutFirst(timing, Token(p), Token(n));
    }
    assert ReplaceAll(tagged, Token(p), Token(n)) == retagged by {
      RenameTagLine(tags[k], p, n, text);
    }
    assert ReplaceAll("", Token(p), Token(n)) == "";
  }

  /** Line `l` of the cue lines, with `[p]` renamed, is line `l` of the cue lines under the renamed tags. */
  lemma RenameCueLine(segments: seq<Segment>, tags: seq<string>, renamedTags: seq<string>,
                      p: string, n: string, l: nat)
    requires |segments| == |tags| == |renamedTags| && l < 2 + 3 * |segments|
    requires forall i :: 0 <= i < |tags| ==> renamedTags[i] == if tags[i] == p then n else tags[i]
    requires forall i :: 0 <= i < |tags| ==> '[' !in tags[i] && ']' !in tags[i]
    requires ']' !in p
    requires forall i :: 0 <= i < |segments| ==> !Occurs(Strip(segments[i].text), Token(p))
    ensures var lines := Header + Concat(CueBlocks(segments, tags));
      var renamed := Header + Concat(CueBlocks(segments, renamedTags));
      && |lines| == |renamed| == 2 + 3 * |segments|
      && ReplaceAll(lines[l], Token(p), Token(n)) == renamed[l]
  {
    if l < 2 {
      RenameHeaderLine(segments, tags, renamedTags, p, n, l);
    } else {
      var k := (l - 2) / 3;
      RenameCueBlock(segments, tags, renamedTags, p, n, k);
      if l == 2 + 3 * k {
      } else if l == 3 + 3 * k {
      } else {
        assert l == 4 + 3 * k;
      }
    }
  }

  /** The two header lines are the same under any tags, and no rename touches them. */
  lemma RenameHeaderLine(segments: seq<Segment>, tags: seq<string>, renamedTags: seq<string>,
                         p: string, n: string, l: nat)
    requires |segments| == |tags| == |renamedTags| && l < |Header|
    ensures var lines := Header + Concat(CueBlocks(segments, tags));
      var renamed := Header + Concat(CueBlocks(segments, renamedTags));
      && |lines| == |renamed| == 2 + 3 * |segments|
      && ReplaceAll(lines[l], Token(p), Token(n)) == renamed[l]
  {
    CueBlocksShape(segments, tags);
    CueBlocksShape(segments, renamedTags);
    ConcatLength(CueBlocks(segments, tags));
    ConcatLength(CueBlocks(segments, renamedTags));
    HeaderKept(l, p, n);
  }

  /** The header lines hold no `[`, so no rename touches them. */
  lemma HeaderKept(l: nat, p: string, n: string)
    requires l < |Header|
    ensures ReplaceAll(Header[l], Token(p), Token(n)) == Header[l]
  {
    ReplaceWithoutFirst(Header[l], Token(p), Token(n));
  }

  /** Renaming `[p]` in joined cue lines gives the joined cue lines with the tags retagged. */
  lemma RenameCueLines(segments: seq<Segment>, tags: seq<string>, p: string, n: string)
    requires |segments| == |tags|
    requires forall i :: 0 <= i < |tags| ==> '[' !in tags[i] && ']' !in tags[i]
    requires ']' !in p && '\n' !in p
    requires forall i :: 0 <= i < |segments| ==> !Occurs(Strip(segments[i].text), Token(p))
    ensures ReplaceAll(Join(Header + Concat(CueBlocks(segments, tags))), Token(p), Token(n))
      == Join(Header + Concat(CueBlocks(segments, Retag(tags, p, n))))
  {
    var lines := Header + Concat(CueBlocks(segments, tags));
    var renamed := Header + Concat(CueBlocks(segments, Retag(tags, p, n)));
    var replaced := ReplaceLines(lines, Token(p), Token(n));
    ReplaceJoin(lines, Token(p), Token(n));
    var retagged := Retag(tags, p, n);
    RenameCueLine(segments, tags, retagged, p, n, 0);
    forall l | 0 <= l < |lines|
      ensures replaced[l] == renamed[l]
    {
      RenameCueLine(segments, tags, retagged, p, n, l);
    }
    assert replaced == renamed;
  }

  /**
   * Renaming placeholder `p` to `n` in a stored track retags exactly the
   * cues tagged `p`: the track becomes the one built with every `p` tag
   * replaced by `n`, and every other line, timing lines, texts and other
   * tags, stays as it was, provided no cue text itself holds `[p]`.
   */
  lemma RenameInTrack(segments: seq<Segment>, diarization: Option<seq<Turn>>, p: string, n: string)
    requires ']' !in p && '\n' !in p
    requires forall i :: 0 <= i < |segments| ==> !Occurs(Strip(segments[i].text), Token(p))
    ensures ApplyRenames(Track(segments, diarization), [(p, n)])
      == Join(Header + Concat(CueBlocks(segments, Retag(Tags(segments, diarization), p, n))))
  {
    AllTagsPlain(segments, diarization);
    RenameCueLines(segments, Tags(segments, diarization), p, n);
    assert [(p, n)][1..] == [];
  }

  /** One pair replaces its token once. */
  lemma OnePairRenames(vtt: string, p: string, n: string)
    ensures ApplyRenames(vtt, [(p, n)]) == ReplaceAll(vtt, Token(p), Token(n))
  {
    assert [(p, n)][1..] == [];
  }

  /** Two pairs replace their tokens one after the other, the second in the output of the first. */
  lemma TwoPairRenames(vtt: string, k1: string, v1: string, k2: string, v2: string)
    ensures ApplyRenames(vtt, [(k1, v1), (k2, v2)])
      == ReplaceAll(ReplaceAll(vtt, Token(k1), Token(v1)), Token(k2), Token(v2))
  {
    var m := [(k1, v1), (k2, v2)];
    assert m[1..] == [(k2, v2)];
    OnePairRenames(ReplaceAll(vtt, Token(k1), Token(v1)), k2, v2);
  }

  /** Renaming `p` to `n` twice in cue lines retags them once. */
  lemma RenameCueLinesTwice(segments: seq<Segment>, tags: seq<string>, p: string, n: string)
    requires |segments| == |tags|
    requires forall i :: 0 <= i < |tags| ==> '[' !in tags[i] && ']' !in tags[i]
    requires ']' !in p && '\n' !in p && '[' !in n && ']' !in n
    requires forall i :: 0 <= i < |segments| ==> !Occurs(Strip(segments[i].text), Token(p))
    ensures var once := ReplaceAll(Join(Header + Concat(CueBlocks(segments, tags))), Token(p), Token(n));
      ReplaceAll(once, Token(p), Token(n)) == once
  {
    var retagged := Retag(tags, p, n);
    RenameCueLines(segments, tags, p, n);
    assert forall i :: 0 <= i < |retagged| ==> '[' !in retagged[i] && ']' !in retagged[i];
    RenameCueLines(segments, retagged, p, n);
    assert Retag(retagged, p, n) == retagged;
  }

  /**
   * A single rename is idempotent on a track: once every `p` tag reads
   * `n`, renaming `p` to `n` again changes nothing, whether or not `n`
   * is `p`.
   */
  lemma RenameTwiceInTrack(segments: seq<Segment>, diarization: Option<seq<Turn>>, p: string, n: string)
    requires ']' !in p && '\n' !in p && '[' !in n && ']' !in n
    requires forall i :: 0 <= i < |segments| ==> !Occurs(Strip(segments[i].text), Token(p))
    ensures var once := ApplyRenames(Track(segments, diarization), [(p, n)]);
      ApplyRenames(once, [(p, n)]) == once
  {
    var vtt := Track(segments, diarization);
    var once := ReplaceAll(vtt, Token(p), Token(n));
    OnePairRenames(vtt, p, n);
    OnePairRenames(once, p, n);
    AllTagsPlain(segments, diarization);
    RenameCueLinesTwice(segments, Tags(segments, diarization), p, n);
  }

  /** Two pairs with distinct fields give a two-entry mapping in form order. */
  lemma TwoPairMapping(k1: string, v1: string, k2: string, v2: string)
    requires k1 != k2
    ensures NewMapping([(k1, v1), (k2, v2)]) == [(k1, Resolve(k1, v1)), (k2, Resolve(k2, v2))]
  {
    var form := [(k1, v1), (k2, v2)];
    assert form[..1] == [form[0]] && form[..1][..0] == [];
    assert NewMapping(form[..1]) == [(k1, Resolve(k1, v1))];
  }

  /** A name that neither starts nor ends with whitespace is its own stripped value. */
  lemma StripName(s: string)
    requires s != [] && !IsSpace(s[0]) && !IsSpace(s[|s| - 1])
    ensures Strip(s) == s
  {
    assert StripStart(s) == 0;
    assert StripEnd(s, 0) == |s|;
    assert s[0..|s|] == s;
  }

  /** `SPEAKER_01` renamed to `Alice`, `SPEAKER_02` left blank. */
  lemma AliceMapping()
    ensures NewMapping([("SPEAKER_01", "Alice"), ("SPEAKER_02", "  ")])
      == [("SPEAKER_01", "Alice"), ("SPEAKER_02", "SPEAKER_02")]
  {
    assert Resolve("SPEAKER_01", "Alice") == "Alice" by {
      StripName("Alice");
    }
    assert Resolve("SPEAKER_02", "  ") == "SPEAKER_02" by {
      StripBlank("  ");
    }
    TwoPairMapping("SPEAKER_01", "Alice", "SPEAKER_02", "  ");
  }

  /** `SPEAKER_01` renamed to `Alice`, `SPEAKER_02` renamed to `SPEAKER_01`. */
  lemma ShiftMapping()
    ensures NewMapping([("SPEAKER_01", "Alice"), ("SPEAKER_02", "SPEAKER_01")])
      == [("SPEAKER_01", "Alice"), ("SPEAKER_02", "SPEAKER_01")]
  {
    assert Resolve("SPEAKER_01", "Alice") == "Alice" by {
      StripName("Alice");
    }
    assert Resolve("SPEAKER_02", "SPEAKER_01") == "SPEAKER_01" by {
      StripName("SPEAKER_01");
    }
    TwoPairMapping("SPEAKER_01", "Alice", "SPEAKER_02", "SPEAKER_01");
  }

  /**
   * The edit page submitted with `SPEAKER_01` renamed to `Alice` and
   * `SPEAKER_02` left blank: every cue tagged `SPEAKER_01` is tagged
   * `Alice`, and every other cue, those of `SPEAKER_02` among them, keeps
   * its tag.
   */
  lemma RenameAlice(segments: seq<Segment>, diarization: Option<seq<Turn>>)
    requires forall i :: 0 <= i < |segments| ==> !Occurs(Strip(segments[i].text), Token("SPEAKER_01"))
    ensures ApplyRenames(Track(segments, diarization), NewMapping([("SPEAKER_01", "Alice"), ("SPEAKER_02", "  ")]))
      == Join(Header + Concat(CueBlocks(segments, Retag(Tags(segments, diarization), "SPEAKER_01", "Alice"))))
  {
    var vtt := Track(segments, diarization);
    var once := ReplaceAll(vtt, Token("SPEAKER_01"), Token("Alice"));
    assert ApplyRenames(vtt, NewMapping([("SPEAKER_01", "Alice"), ("SPEAKER_02", "  ")])) == once by {
      AliceMapping();
      TwoPairRenames(vtt, "SPEAKER_01", "Alice", "SPEAKER_02", "SPEAKER_02");
      ReplaceBySelf(once, Token("SPEAKER_02"));
    }
    assert once == Join(Header + Concat(CueBlocks(segments, Retag(Tags(segments, diarization), "SPEAKER_01", "Alice")))) by {
      FirstPlaceholders();
      PlaceholderNamePlain(1);
      RenameInTrack(segments, diarization, "SPEAKER_01", "Alice");
      OnePairRenames(vtt, "SPEAKER_01", "Alice");
    }
  }

  /**
   * Submitting the same form twice need not give the same track: with
   * `SPEAKER_01` renamed to `Alice` and `SPEAKER_02` to `SPEAKER_01`, a
   * `[SPEAKER_02]` cue reads `[SPEAKER_01]` after the first submission and
   * `[Alice]` after the second.
   */
  lemma RenameTwiceDiffers()
    ensures var m := NewMapping([("SPEAKER_01", "Alice"), ("SPEAKER_02", "SPEAKER_01")]);
      && ApplyRenames("[SPEAKER_02]", m) == "[SPEAKER_01]"
      && ApplyRenames(ApplyRenames("[SPEAKER_02]", m), m) == "[Alice]"
  {
    ShiftMapping();
    ShiftFirst();
    ShiftSecond();
  }

  /** The first submission of the shifting form turns `[SPEAKER_02]` into `[SPEAKER_01]`. */
  lemma ShiftFirst()
    ensures ApplyRenames("[SPEAKER_02]", [("SPEAKER_01", "Alice"), ("SPEAKER_02", "SPEAKER_01")]) == "[SPEAKER_01]"
  {
    var s1, s2, a := "[SPEAKER_01]", "[SPEAKER_02]", "[Alice]";
    assert Token("SPEAKER_01") == s1 && Token("SPEAKER_02") == s2 && Token("Alice") == a;
    TwoPairRenames(s2, "SPEAKER_01", "Alice", "SPEAKER_02", "SPEAKER_01");
    assert ReplaceAll(s2, s1, a) == s2 by {
      assert s2[..12] != s1 by { assert s2[..12][10] != s1[10]; }
      assert |s2[1..]| < |s1|;
      assert [s2[0]] + s2[1..] == s2;
    }
    ReplaceWhole(s2, s1);
  }

  /** The second submission of the shifting form turns `[SPEAKER_01]` into `[Alice]`. */
  lemma ShiftSecond()
    ensures ApplyRenames("[SPEAKER_01]", [("SPEAKER_01", "Alice"), ("SPEAKER_02", "SPEAKER_01")]) == "[Alice]"
  {
    var s1, s2, a := "[SPEAKER_01]", "[SPEAKER_02]", "[Alice]";
    assert Token("SPEAKER_01") == s1 && Token("SPEAKER_02") == s2 && Token("Alice") == a;
    TwoPairRenames(s1, "SPEAKER_01", "Alice", "SPEAKER_02", "SPEAKER_01");
    ReplaceWhole(s1, a);
    assert ReplaceAll(a, s2, s1) == a by {
      assert |a| < |s2|;
    }
  }

  /**
   * Swapping two names merges the speakers: `A` renamed to `B` and `B` to
   * `A` turn `[A][B]` into `[A][A]`.
   */
  lemma SwapMerges()
    ensures ApplyRenames("[A][B]", [("A", "B"), ("B", "A")]) == "[A][A]"
  {
    var m := [("A", "B"), ("B", "A")];
    assert Token("A") == "[A]" && Token("B") == "[B]";
    assert ReplaceAll("[A][B]", "[A]", "[B]") == "[B][B]" by {
      assert ("[A][B]")[3..] == "[B]" && ("[A][B]")[..3] == "[A]";
      assert ReplaceAll("[B]", "[A]", "[B]") == "[B]" by {
        assert ("[B]")[..3][1] != ("[A]")[1];
        assert ("[B]")[1..] == "B]";
        ReplaceWithoutFirst("B]", "[A]", "[B]");
      }
    }
    assert ReplaceAll("[B][B]", "[B]", "[A]") == "[A][A]" by {
      assert ("[B][B]")[3..] == "[B]" && ("[B][B]")[..3] == "[B]";
      ReplaceWhole("[B]", "[A]");
    }
    assert m[1..] == [("B", "A")] && m[1..][1..] == [];
    assert ApplyRenames("[A][B]", m) == ApplyRenames("[B][B]", m[1..]);
  }

  /**
   * A new name holding `[p` undoes idempotence: renaming `A` to `[A` turns
   * `[A]` into `[[A]`, and the same rename again finds `[A]` inside it and
   * gives `[[[A]`.
   */
  lemma BracketNameGrows()
    ensures ApplyRenames("[A]", [("A", "[A")]) == "[[A]"
    ensures ApplyRenames(ApplyRenames("[A]", [("A", "[A")]), [("A", "[A")]) == "[[[A]"
  {
    var pat, rep := "[A]", "[[A]";
    assert Token("A") == pat && Token("[A") == rep;
    OnePairRenames(pat, "A", "[A");
    ReplaceWhole(pat, rep);
    OnePairRenames(rep, "A", "[A");
    assert ReplaceAll(rep, pat, rep) == [rep[0]] + ReplaceAll(rep[1..], pat, rep) by {
      assert rep[..3][2] != pat[2];
    }
    assert rep[1..] == pat;
  }
}
