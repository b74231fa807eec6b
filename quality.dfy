/** The quality picker handed to the content feeder: it chooses one of a
    track's audio files, either the best or the worst tier, and separately
    looks for the first Vorbis file. A file's format is optional, and the
    tier and super-format of a format belong to the streaming library, so
    they are parameters here (`quality`, `superOf`). */
module Quality {
  import opened Wrappers
  import opened Bytes
  import opened StableSort

  datatype AudioQuality = Normal | High | VeryHigh

  datatype SuperAudioFormat = Mp3 | Vorbis | Aac

  datatype Preference = PreferBest | PreferWorst

  /** One entry of a track's file list; `format` is None when the field is unset. */
  datatype AudioFile<F> = AudioFile(fileId: seq<byte>, format: Option<F>)

  /** The rank table of the sort key: NORMAL 0, HIGH 1, VERY_HIGH 2. */
  function Rank(q: AudioQuality): (n: nat)
    ensures n < 3
    ensures q == Normal <==> n == 0
    ensures q == VeryHigh <==> n == 2
  {
    match q
    case Normal => 0
    case High => 1
    case VeryHigh => 2
  }

  /** The sort key of a formatted file. */
  function Tier<F>(quality: F -> AudioQuality, f: AudioFile<F>): nat
  {
    if f.format.Some? then Rank(quality(f.format.value)) else 0
  }

  function TierKey<F>(quality: F -> AudioQuality): AudioFile<F> -> nat
  {
    f => Tier(quality, f)
  }

  /** `[file for file in files if file.HasField("format")]`. */
  function Formatted<F>(files: seq<AudioFile<F>>): (r: seq<AudioFile<F>>)
    ensures |r| <= |files|
  {
    if files == [] then []
    else (if files[0].format.Some? then [files[0]] else []) + Formatted(files[1..])
  }

  /** The filter keeps exactly the files whose format is set. */
  lemma {:induction false} FormattedMembers<F>(files: seq<AudioFile<F>>)
    ensures forall x :: x in Formatted(files) ==> x in files && x.format.Some?
    ensures forall i :: 0 <= i < |files| && files[i].format.Some? ==> files[i] in Formatted(files)
    ensures |Formatted(files)| == 0 <==> forall i :: 0 <= i < |files| ==> files[i].format.None?
  {
    if files != [] {
      FormattedMembers(files[1..]);
      assert forall i :: 1 <= i < |files| ==> files[i] == files[1..][i - 1];
    }
  }

  /** `get_file`: the last (BEST) or first (WORST) formatted file after a
      stable sort by tier. With no formatted file Python's indexing raises;
      that is None here. */
  function GetFile<F>(files: seq<AudioFile<F>>, preferred: Preference, quality: F -> AudioQuality)
    : (r: Option<AudioFile<F>>)
    ensures r.None? <==> forall i :: 0 <= i < |files| ==> files[i].format.None?
  {
    FormattedMembers(files);
    var sorted := SortByKey(Formatted(files), TierKey(quality));
    if |sorted| == 0 then None
    else match preferred
      case PreferBest => Some(sorted[|sorted| - 1])
      case PreferWorst => Some(sorted[0])
  }

  predicate IsVorbis<F>(f: AudioFile<F>, superOf: F -> SuperAudioFormat)
  {
    f.format.Some? && superOf(f.format.value) == Vorbis
  }

  /** `get_vorbis_file`: the first formatted file whose super-format is Vorbis. */
  function GetVorbisFile<F>(files: seq<AudioFile<F>>, superOf: F -> SuperAudioFormat)
    : (r: Option<AudioFile<F>>)
    ensures r.None? <==> forall i :: 0 <= i < |files| ==> !IsVorbis(files[i], superOf)
    ensures r.Some? ==> exists i :: (0 <= i < |files| && files[i] == r.value
      && IsVorbis(files[i], superOf) && forall j :: 0 <= j < i ==> !IsVorbis(files[j], superOf))
  {
    if files == [] then None
    else if IsVorbis(files[0], superOf) then Some(files[0])
    else
      var r := GetVorbisFile(files[1..], superOf);
      assert forall i :: 1 <= i < |files| ==> files[i] == files[1..][i - 1];
      assert r.Some? ==> exists i :: (0 <= i < |files| && files[i] == r.value
        && IsVorbis(files[i], superOf) && forall j :: 0 <= j < i ==> !IsVorbis(files[j], superOf))
      by {
        if r.Some? {
          var i :| 0 <= i < |files[1..]| && files[1..][i] == r.value
            && IsVorbis(files[1..][i], superOf)
            && forall j :: 0 <= j < i ==> !IsVorbis(files[1..][j], superOf);
          assert files[i + 1] == r.value;
        }
      }
      r
  }

  /** The formatted files of tier k, in input order. */
  function Candidates<F>(files: seq<AudioFile<F>>, quality: F -> AudioQuality, k: nat)
    : seq<AudioFile<F>>
  {
    if files == [] then []
    else
      (if files[0].format.Some? && Tier(quality, files[0]) == k then [files[0]] else [])
      + Candidates(files[1..], quality, k)
  }

  /** The reference for BEST: a formatted file of maximal tier with no
      formatted file of that tier after it. */
  ghost predicate LastOfBestTier<F>(files: seq<AudioFile<F>>, quality: F -> AudioQuality, i: int)
  {
    0 <= i < |files| && files[i].format.Some?
    && (forall j :: 0 <= j < |files| && files[j].format.Some? ==>
          Tier(quality, files[j]) <= Tier(quality, files[i]))
    && (forall j :: i < j < |files| && files[j].format.Some? ==>
          Tier(quality, files[j]) < Tier(quality, files[i]))
  }

  /** The reference for WORST: a formatted file of minimal tier with no
      formatted file of that tier before it. */
  ghost predicate FirstOfWorstTier<F>(files: seq<AudioFile<F>>, quality: F -> AudioQuality, i: int)
  {
    0 <= i < |files| && files[i].format.Some?
    && (forall j :: 0 <= j < |files| && files[j].format.Some? ==>
          Tier(quality, files[i]) <= Tier(quality, files[j]))
    && (forall j :: 0 <= j < i && files[j].format.Some? ==>
          Tier(quality, files[i]) < Tier(quality, files[j]))
  }
}

/** What the picker promises, proved from the stable sort. */
module QualityProperties {
  import opened Wrappers
  import opened StableSort
  import opened Quality

  lemma {:induction false} FormattedWithKey<F>(
    files: seq<AudioFile<F>>, quality: F -> AudioQuality, k: nat)
    ensures WithKey(Formatted(files), TierKey(quality), k) == Candidates(files, quality, k)
  {
    if files != [] {
      var f := files[0];
      var head := if f.format.Some? then [f] else [];
      FormattedWithKey(files[1..], quality, k);
      WithKeyAppend(head, Formatted(files[1..]), TierKey(quality), k);
      WithKeyCons(f, [], TierKey(quality), k);
      assert [f] + [] == [f];
    }
  }

  lemma {:induction false} LastCandidate<F>(
    files: seq<AudioFile<F>>, quality: F -> AudioQuality, k: nat) returns (i: nat)
    requires Candidates(files, quality, k) != []
    ensures i < |files|
    ensures var c := Candidates(files, quality, k); files[i] == c[|c| - 1]
    ensures files[i].format.Some? && Tier(quality, files[i]) == k
    ensures forall j :: i < j < |files| && files[j].format.Some? ==> Tier(quality, files[j]) != k
  {
    var rest := Candidates(files[1..], quality, k);
    if rest == [] {
      i := 0;
      assert forall j :: 0 < j < |files| ==> files[j] == files[1..][j - 1];
      NoCandidates(files[1..], quality, k);
    } else {
      var i' := LastCandidate(files[1..], quality, k);
      i := i' + 1;
      assert forall j :: i < j < |files| ==> files[j] == files[1..][j - 1];
    }
  }

  lemma {:induction false} NoCandidates<F>(
    files: seq<AudioFile<F>>, quality: F -> AudioQuality, k: nat)
    requires Candidates(files, quality, k) == []
    ensures forall j :: 0 <= j < |files| && files[j].format.Some? ==> Tier(quality, files[j]) != k
  {
    if files != [] {
      NoCandidates(files[1..], quality, k);
      assert forall j :: 0 < j < |files| ==> files[j] == files[1..][j - 1];
    }
  }

  lemma {:induction false} FirstCandidate<F>(
    files: seq<AudioFile<F>>, quality: F -> AudioQuality, k: nat) returns (i: nat)
    requires Candidates(files, quality, k) != []
    ensures i < |files| && files[i] == Candidates(files, quality, k)[0]
    ensures files[i].format.Some? && Tier(quality, files[i]) == k
    ensures forall j :: 0 <= j < i && files[j].format.Some? ==> Tier(quality, files[j]) != k
  {
    if files[0].format.Some? && Tier(quality, files[0]) == k {
      i := 0;
    } else {
      var i' := FirstCandidate(files[1..], quality, k);
      i := i' + 1;
      assert forall j :: 0 < j < |files| ==> files[j] == files[1..][j - 1];
    }
  }

  /** Sorting the formatted files keeps each tier's files in input order. */
  lemma SortedCandidates<F>(files: seq<AudioFile<F>>, quality: F -> AudioQuality, k: nat)
    ensures WithKey(SortByKey(Formatted(files), TierKey(quality)), TierKey(quality), k)
         == Candidates(files, quality, k)
  {
    SortIsStable(Formatted(files), TierKey(quality), k);
    FormattedWithKey(files, quality, k);
  }

  /** The ends of the sorted list bound the tier of every formatted file. */
  lemma SortedBounds<F>(files: seq<AudioFile<F>>, quality: F -> AudioQuality)
    ensures var t := SortByKey(Formatted(files), TierKey(quality));
      forall j :: 0 <= j < |files| && files[j].format.Some? ==>
        |t| > 0 && Tier(quality, t[0]) <= Tier(quality, files[j]) <= Tier(quality, t[|t| - 1])
  {
    var key := TierKey(quality);
    var s := Formatted(files);
    var t := SortByKey(s, key);
    SortSortsAndPermutes(s, key);
    FormattedMembers(files);
    forall j | 0 <= j < |files| && files[j].format.Some?
      ensures |t| > 0 && key(t[0]) <= key(files[j]) <= key(t[|t| - 1])
    {
      assert files[j] in s;
      assert files[j] in multiset(t);
      SortedEnds(t, key, files[j]);
    }
  }

  /** BEST returns a file of the highest tier, and of those the last one in
      input order, because the sort keeps equal tiers in input order. */
  lemma BestIsLastOfTopTier<F>(files: seq<AudioFile<F>>, quality: F -> AudioQuality)
    requires exists i :: 0 <= i < |files| && files[i].format.Some?
    ensures exists i :: (LastOfBestTier(files, quality, i)
      && GetFile(files, PreferBest, quality) == Some(files[i]))
    ensures forall i :: (LastOfBestTier(files, quality, i)
      ==> GetFile(files, PreferBest, quality) == Some(files[i]))
  {
    var key := TierKey(quality);
    var t := SortByKey(Formatted(files), key);
    assert |t| > 0 by { FormattedMembers(files); }
    var r := t[|t| - 1];
    var k := Tier(quality, r);
    assert GetFile(files, PreferBest, quality) == Some(r);
    SortedBounds(files, quality);
    assert t == t[..|t| - 1] + [r];
    WithKeySnoc(t[..|t| - 1], r, key);
    SortedCandidates(files, quality, k);
    var i := LastCandidate(files, quality, k);
    assert LastOfBestTier(files, quality, i);
    forall i' | LastOfBestTier(files, quality, i')
      ensures i' == i
    {
    }
  }

  /** WORST returns a file of the lowest tier, and of those the first one in input order. */
  lemma WorstIsFirstOfBottomTier<F>(files: seq<AudioFile<F>>, quality: F -> AudioQuality)
    requires exists i :: 0 <= i < |files| && files[i].format.Some?
    ensures exists i :: (FirstOfWorstTier(files, quality, i)
      && GetFile(files, PreferWorst, quality) == Some(files[i]))
    ensures forall i :: (FirstOfWorstTier(files, quality, i)
      ==> GetFile(files, PreferWorst, quality) == Some(files[i]))
  {
    var key := TierKey(quality);
    var t := SortByKey(Formatted(files), key);
    assert |t| > 0 by { FormattedMembers(files); }
    var r := t[0];
    var k := Tier(quality, r);
    assert GetFile(files, PreferWorst, quality) == Some(r);
    SortedBounds(files, quality);
    assert t == [r] + t[1..];
    WithKeyCons(r, t[1..], key, k);
    SortedCandidates(files, quality, k);
    var i := FirstCandidate(files, quality, k);
    assert FirstOfWorstTier(files, quality, i);
    forall i' | FirstOfWorstTier(files, quality, i')
      ensures i' == i
    {
    }
  }

  /** The picker never invents a file: any answer is a formatted entry of the list. */
  lemma PickIsFormattedEntry<F>(
    files: seq<AudioFile<F>>, preferred: Preference, quality: F -> AudioQuality)
    ensures var r := GetFile(files, preferred, quality);
      r.Some? ==> r.value in files && r.value.format.Some?
  {
    var s := Formatted(files);
    var t := SortByKey(s, TierKey(quality));
    SortSortsAndPermutes(s, TierKey(quality));
    FormattedMembers(files);
    if |t| > 0 {
      assert t[0] in multiset(s);
      assert t[|t| - 1] in multiset(s);
    }
  }
}
