/**
 * Anonymous speaker placeholders (app.py `index`, STEP 5): every distinct
 * speaker label, in the order it is first attributed to a segment, receives
 * `SPEAKER_NN`, where `NN` is its rank written `{counter:02d}`. This module
 * gives the allocation as a function of the sequence of resolved speaker
 * labels; the loop that builds it is `Subtitles.BuildTrack`.
 */
module Placeholders {
  import opened Decimal

  /** `f"SPEAKER_{n:02d}"` */
  function PlaceholderName(n: nat): string {
    "SPEAKER_" + PadDecimal(n, 2)
  }

  predicate Distinct(xs: seq<string>) {
    forall i, j :: 0 <= i < j < |xs| ==> xs[i] != xs[j]
  }

  /** Position of the first `x` in `xs`. */
  function IndexOf(xs: seq<string>, x: string): (i: nat)
    requires x in xs
    ensures i < |xs| && xs[i] == x
    ensures forall k :: 0 <= k < i ==> xs[k] != x
  {
    if xs[0] == x then 0 else 1 + IndexOf(xs[1..], x)
  }

  /** The distinct labels of `speakers`, each at the place it first appears. */
  function FirstSeen(speakers: seq<string>): (order: seq<string>)
    ensures Distinct(order)
    ensures |order| <= |speakers|
    ensures forall x :: x in order <==> x in speakers
  {
    if speakers == [] then []
    else
      var prev, x := FirstSeen(speakers[..|speakers| - 1]), speakers[|speakers| - 1];
      assert speakers == speakers[..|speakers| - 1] + [x];
      if x in prev then prev else prev + [x]
  }

  /** The rank, from 1, of every label in first-seen order. */
  function Numbering(speakers: seq<string>): map<string, nat> {
    var order := FirstSeen(speakers);
    map x | x in order :: IndexOf(order, x) + 1
  }

  /**
   * The placeholder map after all `speakers` were seen: each label maps to
   * the placeholder numbered by its rank in first-seen order.
   */
  function Allocation(speakers: seq<string>): map<string, string> {
    var numbering := Numbering(speakers);
    map x | x in numbering :: PlaceholderName(numbering[x])
  }

  /** Placeholder names are distinct for distinct numbers (their digits give the number back). */
  lemma PlaceholderNameInjective(m: nat, n: nat)
    requires PlaceholderName(m) == PlaceholderName(n)
    ensures m == n
  {
    PadDecimalFacts(m, 2);
    PadDecimalFacts(n, 2);
    assert PlaceholderName(m)[8..] == PadDecimal(m, 2);
    assert PlaceholderName(n)[8..] == PadDecimal(n, 2);
  }

  /** A placeholder is `SPEAKER_` followed by at least two digits. */
  lemma PlaceholderNameShape(n: nat)
    ensures |PlaceholderName(n)| >= 10 && PlaceholderName(n)[..8] == "SPEAKER_"
    ensures AllDigits(PlaceholderName(n)[8..])
    ensures n < 100 ==> |PlaceholderName(n)| == 10
  {
    PadDecimalFacts(n, 2);
    assert PlaceholderName(n)[8..] == PadDecimal(n, 2);
  }

  /** A placeholder holds no bracket and no newline, so it can sit between brackets on one line. */
  lemma PlaceholderNamePlain(n: nat)
    ensures '[' !in PlaceholderName(n) && ']' !in PlaceholderName(n) && '\n' !in PlaceholderName(n)
  {
    PlaceholderNameShape(n);
    var name := PlaceholderName(n);
    assert name == name[..8] + name[8..];
    assert forall k :: 0 <= k < |name| - 8 ==> IsDigit(name[8..][k]);
  }

  lemma FirstPlaceholders()
    ensures PlaceholderName(1) == "SPEAKER_01" && PlaceholderName(2) == "SPEAKER_02"
  {
  }

  lemma {:induction false} IndexOfDistinct(xs: seq<string>, i: nat)
    requires Distinct(xs) && i < |xs|
    ensures IndexOf(xs, xs[i]) == i
  {
  }

  /** Appending a new label to a sequence keeps the positions of the labels already there. */
  lemma {:induction false} IndexOfAppend(xs: seq<string>, y: string, x: string)
    requires x in xs
    ensures IndexOf(xs + [y], x) == IndexOf(xs, x)
  {
    var i := IndexOf(xs, x);
    assert (xs + [y])[i] == x;
    assert forall k :: 0 <= k < i ==> (xs + [y])[k] == xs[k];
  }

  /** A prefix of the speakers sees a prefix of the first-seen order. */
  lemma {:induction false} FirstSeenPrefix(speakers: seq<string>, n: nat)
    requires n <= |speakers|
    ensures var short, full := FirstSeen(speakers[..n]), FirstSeen(speakers);
      |short| <= |full| && short == full[..|short|]
    decreases |speakers|
  {
    if n < |speakers| {
      var init := speakers[..|speakers| - 1];
      assert init[..n] == speakers[..n];
      FirstSeenPrefix(init, n);
    } else {
      assert speakers[..n] == speakers;
    }
  }

  /** The first speaker is the first in first-seen order. */
  lemma {:induction false} FirstSeenHead(speakers: seq<string>)
    requires |speakers| > 0
    ensures |FirstSeen(speakers)| > 0 && FirstSeen(speakers)[0] == speakers[0]
  {
    FirstSeenPrefix(speakers, 1);
    assert speakers[..1] == [speakers[0]];
    assert [speakers[0]][..0] == [];
  }

  /**
   * First-seen order: a label placed earlier in the order first occurs
   * earlier among the speakers.
   */
  lemma {:induction false} FirstSeenOrder(speakers: seq<string>, i: nat, j: nat)
    requires i < j < |FirstSeen(speakers)|
    ensures IndexOf(speakers, FirstSeen(speakers)[i]) < IndexOf(speakers, FirstSeen(speakers)[j])
  {
    var init, x := speakers[..|speakers| - 1], speakers[|speakers| - 1];
    var prev := FirstSeen(init);
    assert speakers == init + [x];
    if x in prev {
      FirstSeenOrder(init, i, j);
      IndexOfAppend(init, x, prev[i]);
      IndexOfAppend(init, x, prev[j]);
    } else if j < |prev| {
      FirstSeenOrder(init, i, j);
      IndexOfAppend(init, x, prev[i]);
      IndexOfAppend(init, x, prev[j]);
    } else {
      assert FirstSeen(speakers)[j] == x && x !in init;
      IndexOfAppend(init, x, prev[i]);
      assert IndexOf(speakers, x) == |init|;
    }
  }

  /** One more speaker: it joins the first-seen order only if it is new. */
  lemma FirstSeenStep(speakers: seq<string>, x: string)
    ensures FirstSeen(speakers + [x]) == if x in speakers then FirstSeen(speakers) else FirstSeen(speakers) + [x]
  {
    var s := speakers + [x];
    assert s[..|s| - 1] == speakers;
  }

  /** One more speaker: a label already seen keeps its rank; a new one gets the next rank. */
  lemma {:induction false} NumberingStep(speakers: seq<string>, x: string)
    ensures Numbering(speakers + [x]) ==
      if x in speakers then Numbering(speakers)
      else Numbering(speakers)[x := |FirstSeen(speakers)| + 1]
  {
    var s := speakers + [x];
    assert s[..|s| - 1] == speakers;
    var prev := FirstSeen(speakers);
    if x !in speakers {
      var order := prev + [x];
      assert FirstSeen(s) == order;
      var after, before := Numbering(s), Numbering(speakers)[x := |prev| + 1];
      assert after.Keys == before.Keys;
      forall y | y in after.Keys ensures after[y] == before[y] {
        if y == x {
          IndexOfDistinct(order, |prev|);
        } else {
          IndexOfAppend(prev, x, y);
        }
      }
    }
  }

  /**
   * One more speaker: a label already seen keeps the map as it is; a new one
   * is added with the next placeholder, numbered `|FirstSeen| + 1`.
   */
  lemma {:induction false} AllocationStep(speakers: seq<string>, x: string)
    ensures Allocation(speakers + [x]) ==
      if x in speakers then Allocation(speakers)
      else Allocation(speakers)[x := PlaceholderName(|FirstSeen(speakers)| + 1)]
  {
    NumberingStep(speakers, x);
    if x !in speakers {
      var after, before := Allocation(speakers + [x]), Allocation(speakers)[x := PlaceholderName(|FirstSeen(speakers)| + 1)];
      assert after.Keys == before.Keys;
    }
  }

  /**
   * The allocator's step, as the loop takes it: with the map and the counter
   * for the first `i` speakers, speaker `i` reuses its entry if it has one, or
   * gets `PlaceholderName(counter)` and the counter moves on; either way its
   * entry is the one it keeps for good.
   */
  lemma AllocateNext(speakers: seq<string>, i: nat, placeholders: map<string, string>, counter: nat)
    requires i < |speakers|
    requires placeholders == Allocation(speakers[..i]) && counter == |FirstSeen(speakers[..i])| + 1
    ensures var x := speakers[i];
      && (x in placeholders ==>
            placeholders == Allocation(speakers[..i + 1]) && counter == |FirstSeen(speakers[..i + 1])| + 1)
      && (x !in placeholders ==>
            placeholders[x := PlaceholderName(counter)] == Allocation(speakers[..i + 1])
            && counter + 1 == |FirstSeen(speakers[..i + 1])| + 1)
      && x in Allocation(speakers[..i + 1])
      && x in Allocation(speakers)
      && Allocation(speakers[..i + 1])[x] == Allocation(speakers)[x]
  {
    var x := speakers[i];
    var before, after := speakers[..i], speakers[..i + 1];
    assert after == before + [x];
    assert (x in placeholders) == (x in before) by {
      AllocationDense(before);
    }
    assert Allocation(after) == if x in before then placeholders else placeholders[x := PlaceholderName(counter)] by {
      AllocationStep(before, x);
    }
    assert |FirstSeen(after)| == if x in before then |FirstSeen(before)| else |FirstSeen(before)| + 1 by {
      FirstSeenStep(before, x);
    }
    assert x in Allocation(after) by {
      AllocationDense(after);
    }
    AllocationStable(speakers, i + 1, x);
  }

  lemma {:induction false} DistinctCardinality(xs: seq<string>)
    requires Distinct(xs)
    ensures |set x | x in xs| == |xs|
  {
    if xs != [] {
      var init := xs[..|xs| - 1];
      DistinctCardinality(init);
      assert (set x | x in xs) == (set x | x in init) + {xs[|xs| - 1]};
    }
  }

  /**
   * The placeholders are dense: `k` distinct speakers receive exactly
   * `SPEAKER_01 .. SPEAKER_k`, one each, and the map has one entry per speaker.
   */
  lemma AllocationDense(speakers: seq<string>)
    ensures var m, k := Allocation(speakers), |FirstSeen(speakers)|;
      && m.Keys == set x | x in speakers
      && |m| == k
      && m.Values == set n: nat | 1 <= n <= k :: PlaceholderName(n)
  {
    AllocationKeys(speakers);
    AllocationValues(speakers);
  }

  /** The map has an entry for every speaker seen and for nothing else, one per distinct speaker. */
  lemma AllocationKeys(speakers: seq<string>)
    ensures Allocation(speakers).Keys == set x | x in speakers
    ensures |Allocation(speakers)| == |FirstSeen(speakers)|
  {
    var m, order := Allocation(speakers), FirstSeen(speakers);
    assert m.Keys == set x | x in order;
    DistinctCardinality(order);
  }

  /** The placeholders handed out are `SPEAKER_01 .. SPEAKER_k`. */
  lemma AllocationValues(speakers: seq<string>)
    ensures var k := |FirstSeen(speakers)|;
      Allocation(speakers).Values == set n: nat | 1 <= n <= k :: PlaceholderName(n)
  {
    var m, numbering, order := Allocation(speakers), Numbering(speakers), FirstSeen(speakers);
    var k := |order|;
    var names := set n: nat | 1 <= n <= k :: PlaceholderName(n);
    assert names <= m.Values by {
      forall n: nat | 1 <= n <= k ensures PlaceholderName(n) in m.Values {
        IndexOfDistinct(order, n - 1);
        assert numbering[order[n - 1]] == n;
        assert m[order[n - 1]] == PlaceholderName(n);
      }
    }
    assert m.Values <= names by {
      forall v | v in m.Values ensures v in names {
        var x :| x in m && m[x] == v;
        assert v == PlaceholderName(numbering[x]);
      }
    }
  }

  /** The placeholders follow first-seen order: the `i`-th new speaker gets number `i + 1`. */
  lemma AllocationOrder(speakers: seq<string>, i: nat)
    requires i < |FirstSeen(speakers)|
    ensures FirstSeen(speakers)[i] in Allocation(speakers)
    ensures Allocation(speakers)[FirstSeen(speakers)[i]] == PlaceholderName(i + 1)
  {
    IndexOfDistinct(FirstSeen(speakers), i);
    assert Numbering(speakers)[FirstSeen(speakers)[i]] == i + 1;
  }

  /** The speaker of the first segment always receives `SPEAKER_01`. */
  lemma FirstSpeakerGetsOne(speakers: seq<string>)
    requires |speakers| > 0
    ensures speakers[0] in Allocation(speakers)
    ensures Allocation(speakers)[speakers[0]] == "SPEAKER_01"
  {
    FirstSeenHead(speakers);
    AllocationOrder(speakers, 0);
  }

  /** Different speakers never share a placeholder. */
  lemma AllocationInjective(speakers: seq<string>, x: string, y: string)
    requires x in Allocation(speakers) && y in Allocation(speakers) && x != y
    ensures Allocation(speakers)[x] != Allocation(speakers)[y]
  {
    var order, numbering := FirstSeen(speakers), Numbering(speakers);
    assert numbering[x] != numbering[y] by {
      assert numbering[x] == IndexOf(order, x) + 1 && numbering[y] == IndexOf(order, y) + 1;
    }
    if Allocation(speakers)[x] == Allocation(speakers)[y] {
      PlaceholderNameInjective(numbering[x], numbering[y]);
    }
  }

  /**
   * An entry, once made, is never overwritten: the map after a prefix of the
   * speakers is contained in the map after all of them.
   */
  lemma AllocationStable(speakers: seq<string>, n: nat, x: string)
    requires n <= |speakers| && x in Allocation(speakers[..n])
    ensures x in Allocation(speakers)
    ensures Allocation(speakers)[x] == Allocation(speakers[..n])[x]
  {
    var short, full := FirstSeen(speakers[..n]), FirstSeen(speakers);
    FirstSeenPrefix(speakers, n);
    var i := IndexOf(short, x);
    assert full[i] == x;
    IndexOfDistinct(full, i);
    assert Numbering(speakers)[x] == Numbering(speakers[..n])[x];
  }

  /** Without diarization every segment is `Unknown`, so the map is `{Unknown: SPEAKER_01}`. */
  lemma {:induction false} SingleSpeaker(speakers: seq<string>, u: string)
    requires |speakers| > 0
    requires forall i :: 0 <= i < |speakers| ==> speakers[i] == u
    ensures Allocation(speakers) == map[u := "SPEAKER_01"]
  {
    var init := speakers[..|speakers| - 1];
    assert speakers == init + [u];
    if init == [] {
      EmptyAllocation();
      AllocationStep([], u);
      FirstPlaceholders();
    } else {
      SingleSpeaker(init, u);
      AllocationStep(init, u);
    }
  }

  lemma EmptyAllocation()
    ensures FirstSeen([]) == [] && Allocation([]) == map[]
  {
    assert Numbering([]) == map[];
  }

  /** A speaker who returns reuses the placeholder: labels A, B, A give `{A: SPEAKER_01, B: SPEAKER_02}`. */
  lemma ReturningSpeaker(a: string, b: string)
    requires a != b
    ensures Allocation([a, b, a]) == map[a := "SPEAKER_01", b := "SPEAKER_02"]
  {
    var one, two := PlaceholderName(1), PlaceholderName(2);
    assert one == "SPEAKER_01" && two == "SPEAKER_02" by {
      FirstPlaceholders();
    }
    assert Allocation([a]) == map[a := one] && FirstSeen([a]) == [a] by {
      EmptyAllocation();
      assert [a] == [] + [a];
      AllocationStep([], a);
      assert [a][..0] == [];
    }
    assert Allocation([a, b]) == map[a := one, b := two] by {
      assert [a, b] == [a] + [b];
      AllocationStep([a], b);
    }
    assert Allocation([a, b, a]) == Allocation([a, b]) by {
      assert [a, b, a] == [a, b] + [a];
      AllocationStep([a, b], a);
    }
  }
}
