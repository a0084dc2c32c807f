/** The greedy voice assignment never lets a voice sing two overlapping lines, and no assignment does
    with fewer voices. */
module LyricsVoices {
  import opened Wrappers
  import opened Sequences
  import opened LyricsLyricsfile

  ghost predicate StartsInOrder(entries: seq<Entry>) {
    forall i, j :: 0 <= i < j < |entries| ==> entries[i].startMs <= entries[j].startMs
  }

  /** No two lines share a voice when the earlier one ends after the later one starts. */
  ghost predicate ConflictFree(entries: seq<Entry>, voices: seq<nat>) {
    && |voices| == |entries|
    && forall i, j :: 0 <= i < j < |voices| && voices[i] == voices[j] ==> Release(entries, i) <= entries[j].startMs
  }

  /** The lines sounding when line j starts, line j included. */
  ghost function SoundingAt(entries: seq<Entry>, j: nat): set<nat>
    requires j < |entries|
  {
    set i: nat | i <= j && (i == j || Release(entries, i) > entries[j].startMs)
  }

  ghost function Used(voices: seq<nat>): set<nat> { set i | 0 <= i < |voices| :: voices[i] }

  /** A line once released by a start is not sounding again at a later one. */
  ghost predicate NoComeBack(entries: seq<Entry>) {
    forall i, k, j :: 0 <= i < k < j < |entries| && Release(entries, i) <= entries[k].startMs ==>
                        Release(entries, i) <= entries[j].startMs
  }

  /** Starts in order are the usual case of it. */
  lemma OrderedStartsNoComeBack(entries: seq<Entry>)
    requires StartsInOrder(entries)
    ensures NoComeBack(entries)
  {
  }

  /** Line i is held through to line j exactly when it sounds at line j's start. */
  ghost predicate BusyIsSounding(entries: seq<Entry>, i: nat, j: nat)
    requires i < j < |entries|
  {
    BusyThrough(entries, i, j) <==> Release(entries, i) > entries[j].startMs
  }

  /** The voices the assignment takes for busy are exactly those of the lines that sound, at every
      start, if and only if no released line comes back. */
  lemma BusyIsSoundingIff(entries: seq<Entry>)
    ensures NoComeBack(entries) <==> forall i, j :: 0 <= i < j < |entries| ==> BusyIsSounding(entries, i, j)
  {
    if forall i, j :: 0 <= i < j < |entries| ==> BusyIsSounding(entries, i, j) {
      forall i, k, j | 0 <= i < k < j < |entries| && Release(entries, i) <= entries[k].startMs
        ensures Release(entries, i) <= entries[j].startMs
      {
        assert BusyIsSounding(entries, i, j);
      }
    }
  }

  /** No line comes back is enough for a conflict-free assignment. */
  lemma GreedyIsConflictFree(entries: seq<Entry>, voices: seq<nat>)
    requires NoComeBack(entries) && LowestFree(entries, voices)
    ensures ConflictFree(entries, voices)
  {
  }

  /** Line i is released before line j starts, and sounds at line j's start again. */
  ghost predicate ComesBack(entries: seq<Entry>, i: nat, j: nat)
    requires i < j < |entries|
  {
    Release(entries, i) > entries[j].startMs && exists k :: i < k < j && Release(entries, i) <= entries[k].startMs
  }

  /** The greedy assignment conflicts exactly where a line that comes back meets its own voice. */
  lemma ConflictFreeIff(entries: seq<Entry>, voices: seq<nat>)
    requires LowestFree(entries, voices)
    ensures ConflictFree(entries, voices) <==>
              forall i, j :: 0 <= i < j < |entries| && ComesBack(entries, i, j) ==> voices[i] != voices[j]
  {
    forall i, j | 0 <= i < j < |voices| && voices[i] == voices[j] && Release(entries, i) > entries[j].startMs
      ensures ComesBack(entries, i, j)
    {
      assert !BusyThrough(entries, i, j);
    }
  }

  lemma {:induction false} InjectiveImage(domain: set<nat>, f: seq<nat>)
    requires forall i :: i in domain ==> i < |f|
    requires forall i, j :: i in domain && j in domain && i != j ==> f[i] != f[j]
    ensures |set i | i in domain :: f[i]| == |domain|
    decreases |domain|
  {
    var image := set i | i in domain :: f[i];
    if domain != {} {
      var i :| i in domain;
      var rest := domain - {i};
      InjectiveImage(rest, f);
      var restImage := set j | j in rest :: f[j];
      assert image == restImage + {f[i]};
      assert f[i] !in restImage;
    } else {
      assert image == {};
    }
  }

  /** Any conflict-free assignment needs a voice for each line sounding at once. */
  lemma DepthIsNeeded(entries: seq<Entry>, voices: seq<nat>, j: nat)
    requires NoComeBack(entries) && ConflictFree(entries, voices) && j < |entries|
    ensures |SoundingAt(entries, j)| <= |Used(voices)|
  {
    var s := SoundingAt(entries, j);
    forall a, b | a in s && b in s && a != b ensures voices[a] != voices[b] {
      var lo, hi := if a < b then a else b, if a < b then b else a;
      assert Release(entries, lo) > entries[j].startMs && Release(entries, lo) > entries[hi].startMs;
    }
    InjectiveImage(s, voices);
    SubsetCard(set i | i in s :: voices[i], Used(voices));
  }

  ghost function Below(n: nat): (s: set<nat>)
    ensures |s| == n && forall v :: v in s <==> 0 <= v < n
  {
    if n == 0 then {} else Below(n - 1) + {n - 1}
  }

  /** Greedy opens voice v only when v other lines are sounding. */
  lemma GreedyNeedsDepth(entries: seq<Entry>, voices: seq<nat>, j: nat)
    requires LowestFree(entries, voices) && j < |entries|
    ensures voices[j] + 1 <= |SoundingAt(entries, j)|
  {
    var lower := Below(voices[j] + 1);
    var image := set i | i in SoundingAt(entries, j) :: voices[i];
    forall v | v in lower ensures v in image {
      if v == voices[j] {
        assert j in SoundingAt(entries, j);
      } else {
        assert Holder(entries, voices, j, v);
        var i :| 0 <= i < j && voices[i] == v && BusyThrough(entries, i, j);
        assert i in SoundingAt(entries, j);
      }
    }
    SubsetCard(lower, image);
    ImageCard(SoundingAt(entries, j), voices);
  }

  lemma {:induction false} ImageCard(domain: set<nat>, f: seq<nat>)
    requires forall i :: i in domain ==> i < |f|
    ensures |set i | i in domain :: f[i]| <= |domain|
    decreases |domain|
  {
    var image := set i | i in domain :: f[i];
    if domain != {} {
      var i :| i in domain;
      ImageCard(domain - {i}, f);
      assert image == (set j | j in domain - {i} :: f[j]) + {f[i]};
    } else {
      assert image == {};
    }
  }

  /** The voices used are exactly 0..max. */
  lemma GreedyUsesAllLower(entries: seq<Entry>, voices: seq<nat>, max: nat)
    requires LowestFree(entries, voices) && MaxVoice(voices, max)
    ensures Used(voices) == Below(max + 1) && |Used(voices)| == max + 1
  {
    var j :| 0 <= j < |voices| && voices[j] == max;
    forall v: nat | v < max + 1 ensures v in Used(voices) {
      if v < max {
        assert Holder(entries, voices, j, v);
      }
    }
  }

  /** With no line coming back, as when the starts are in order, the number of voices equals the largest
      number of lines sounding at once, and no conflict-free assignment uses fewer. */
  lemma GreedyIsOptimal(entries: seq<Entry>, voices: seq<nat>, max: nat, other: seq<nat>)
    requires NoComeBack(entries) && LowestFree(entries, voices) && MaxVoice(voices, max)
    requires ConflictFree(entries, other)
    ensures |Used(voices)| == max + 1
    ensures exists j :: 0 <= j < |entries| && |SoundingAt(entries, j)| == max + 1
    ensures forall j :: 0 <= j < |entries| ==> |SoundingAt(entries, j)| <= max + 1
    ensures |Used(voices)| <= |Used(other)|
  {
    GreedyUsesAllLower(entries, voices, max);
    GreedyIsConflictFree(entries, voices);
    forall j | 0 <= j < |entries| ensures |SoundingAt(entries, j)| <= max + 1 { DepthIsNeeded(entries, voices, j); }
    var j :| 0 <= j < |voices| && voices[j] == max;
    GreedyNeedsDepth(entries, voices, j);
    DepthIsNeeded(entries, other, j);
  }

  /** Out of order starts break it: the third line starts inside the first one, yet takes its voice,
      because the second line, which starts later, had already freed it. */
  lemma UnorderedStartsConflict(voices: seq<nat>)
    requires LowestFree([Entry("a", 0, Some(10), []), Entry("b", 20, None, []), Entry("c", 5, Some(9), [])], voices)
    ensures !ConflictFree([Entry("a", 0, Some(10), []), Entry("b", 20, None, []), Entry("c", 5, Some(9), [])], voices)
  {
    var entries := [Entry("a", 0, Some(10), []), Entry("b", 20, None, []), Entry("c", 5, Some(9), [])];
    assert Release(entries, 0) == 10 && Release(entries, 1) == 5;
    assert !BusyThrough(entries, 0, 2) by { assert entries[1].startMs == 20; }
    assert !BusyThrough(entries, 1, 2) by { assert entries[2].startMs == 5; }
    assert !Holder(entries, voices, 0, 0) && !Holder(entries, voices, 2, 0);
    assert voices[0] == voices[2] == 0;
  }

  /** A line that comes back need not conflict: here the second line still holds the voice when the
      third starts.  Whether a conflict follows depends on the voices taken in between. */
  lemma ComeBackWithoutConflict(voices: seq<nat>)
    requires LowestFree([Entry("a", 0, Some(10), []), Entry("b", 20, Some(30), []), Entry("c", 5, Some(9), [])], voices)
    ensures !NoComeBack([Entry("a", 0, Some(10), []), Entry("b", 20, Some(30), []), Entry("c", 5, Some(9), [])])
    ensures ConflictFree([Entry("a", 0, Some(10), []), Entry("b", 20, Some(30), []), Entry("c", 5, Some(9), [])],
                         voices)
  {
    var entries := [Entry("a", 0, Some(10), []), Entry("b", 20, Some(30), []), Entry("c", 5, Some(9), [])];
    assert Release(entries, 0) == 10 && Release(entries, 1) == 30 && Release(entries, 2) == 9;
    assert entries[1].startMs == 20 && entries[2].startMs == 5;
    assert BusyThrough(entries, 1, 2);
    assert !BusyThrough(entries, 0, 1);
    assert !Holder(entries, voices, 0, 0) && !Holder(entries, voices, 1, 0);
    assert voices[0] == voices[1] == 0 != voices[2];
  }
}
