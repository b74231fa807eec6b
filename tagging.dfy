/** The dispatch of `tag_audio`: the file's format is the upper-cased text
    after its last '.', and the first entry of a four-row table whose
    extension set holds that format picks the container writer. A writer
    either completes or raises; a raise is logged and the loop moves on.
    What the writers do to the file belongs to the tagging library, so each
    writer is only "completes or not" (`completes`). */
module Tagging {
  import opened Wrappers
  import opened Text
  import opened Quality

  datatype Family = Mpeg4 | Mpeg3 | Flac | OggVorbis

  datatype Entry = Entry(extensions: set<string>, family: Family)

  /** The dispatch table, in the order the loop walks it. */
  const TABLE: seq<Entry> := [
    Entry({"M4A", "M4B", "M4P", "MP4"}, Mpeg4),
    Entry({"MP3"}, Mpeg3),
    Entry({"FLAC"}, Flac),
    Entry({"OGG", "OGV"}, OggVorbis)
  ]

  /** `file.split(".")[-1].upper()`, with `upper()` on ASCII letters only;
      the paths the download tags all end in an ASCII extension. */
  function FormatOf(path: string): (format: string)
    ensures '.' !in format
  {
    var ext := LastSegment(path, '.');
    assert forall i :: 0 <= i < |ext| ==> UpperChar(ext[i]) != '.';
    ToUpper(ext)
  }

  /** The loop of `tag_audio` over the remaining table entries: true as soon
      as a matching writer completes; a raising writer falls through. */
  function TryWriters(entries: seq<Entry>, format: string, completes: Family -> bool): bool
  {
    if entries == [] then false
    else if format in entries[0].extensions && completes(entries[0].family) then true
    else TryWriters(entries[1..], format, completes)
  }

  /** `tag_audio`'s result for a path. */
  function TagAudio(path: string, completes: Family -> bool): bool
  {
    TryWriters(TABLE, FormatOf(path), completes)
  }

  /** The writers the loop starts for a format, in table order. */
  function Attempted(entries: seq<Entry>, format: string): seq<Family>
  {
    if entries == [] then []
    else
      (if format in entries[0].extensions then [entries[0].family] else [])
      + Attempted(entries[1..], format)
  }

  /** The family of the first entry whose extension set holds the format. */
  function FirstFamily(entries: seq<Entry>, format: string): (r: Option<Family>)
    ensures r.None? <==> forall i :: 0 <= i < |entries| ==> format !in entries[i].extensions
  {
    if entries == [] then None
    else if format in entries[0].extensions then Some(entries[0].family)
    else
      var r := FirstFamily(entries[1..], format);
      assert forall i :: 1 <= i < |entries| ==> entries[i] == entries[1..][i - 1];
      r
  }

  /** The family a format is tagged as, if any. */
  function FamilyOf(format: string): Option<Family>
  {
    FirstFamily(TABLE, format)
  }

  /** No format is in two rows of the table. */
  ghost predicate Disjoint(entries: seq<Entry>)
  {
    forall i, j :: 0 <= i < j < |entries| ==> entries[i].extensions !! entries[j].extensions
  }

  /** The extension the download appends for a stream's super-format. */
  function ExtensionFor(f: SuperAudioFormat): (ext: string)
    ensures |ext| == 4 && ext[0] == '.' && '.' !in ext[1..]
  {
    match f
    case Aac => ".aac"
    case Vorbis => ".ogg"
    case Mp3 => ".mp3"
  }
}

/** What the dispatch promises. */
module TaggingProperties {
  import opened Wrappers
  import opened Text
  import opened Quality
  import opened Tagging

  /** The extension sets of the table are pairwise disjoint. */
  lemma TableDisjoint()
    ensures Disjoint(TABLE)
  {
    assert "MP3" !in TABLE[0].extensions by {
      assert "MP3"[1] != "M4A"[1] && "MP3"[1] != "M4B"[1] && "MP3"[1] != "M4P"[1];
      assert "MP3"[2] != "MP4"[2];
    }
    assert "FLAC" !in TABLE[0].extensions + TABLE[1].extensions;
    assert "OGG" !in TABLE[0].extensions + TABLE[1].extensions + TABLE[2].extensions;
    assert "OGV" !in TABLE[0].extensions + TABLE[1].extensions + TABLE[2].extensions;
  }

  /** A format in no row starts no writer and is not tagged. */
  lemma {:induction false} Absent(entries: seq<Entry>, format: string, completes: Family -> bool)
    requires forall i :: 0 <= i < |entries| ==> format !in entries[i].extensions
    ensures Attempted(entries, format) == []
    ensures !TryWriters(entries, format, completes)
  {
    if entries != [] {
      assert forall i :: 1 <= i < |entries| ==> entries[i] == entries[1..][i - 1];
      Absent(entries[1..], format, completes);
    }
  }

  lemma DisjointTail(entries: seq<Entry>)
    requires entries != [] && Disjoint(entries)
    ensures Disjoint(entries[1..])
    ensures forall format :: format in entries[0].extensions ==>
      forall i :: 0 <= i < |entries[1..]| ==> format !in entries[1..][i].extensions
  {
    forall format, i | format in entries[0].extensions && 0 <= i < |entries[1..]|
      ensures format !in entries[1..][i].extensions
    {
      assert entries[1..][i] == entries[i + 1];
    }
  }

  /** With disjoint rows, at most one writer starts: the one of the format's family. */
  lemma {:induction false} AttemptedIsFirstFamily(entries: seq<Entry>, format: string)
    requires Disjoint(entries)
    ensures Attempted(entries, format)
         == match FirstFamily(entries, format) case None => [] case Some(f) => [f]
  {
    if entries != [] {
      DisjointTail(entries);
      if format in entries[0].extensions {
        Absent(entries[1..], format, _ => false);
      } else {
        AttemptedIsFirstFamily(entries[1..], format);
      }
    }
  }

  /** With disjoint rows, the loop returns True exactly when the format has a
      family and that family's writer completes. */
  lemma {:induction false} TryWritersIsFirstFamily(entries: seq<Entry>, format: string,
                                                   completes: Family -> bool)
    requires Disjoint(entries)
    ensures TryWriters(entries, format, completes) <==>
      FirstFamily(entries, format).Some? && completes(FirstFamily(entries, format).value)
  {
    if entries != [] {
      DisjointTail(entries);
      if format in entries[0].extensions {
        Absent(entries[1..], format, completes);
      } else {
        TryWritersIsFirstFamily(entries[1..], format, completes);
      }
    }
  }

  /** At most one writer runs for any file, and exactly the one of its family. */
  lemma AtMostOneWriter(path: string)
    ensures Attempted(TABLE, FormatOf(path))
         == match FamilyOf(FormatOf(path)) case None => [] case Some(f) => [f]
  {
    TableDisjoint();
    AttemptedIsFirstFamily(TABLE, FormatOf(path));
  }

  /** `tag_audio` returns True exactly when the format has a family and that
      family's writer completes; a raising writer or an unknown format gives False. */
  lemma TagAudioIff(path: string, completes: Family -> bool)
    ensures TagAudio(path, completes) <==>
      FamilyOf(FormatOf(path)).Some? && completes(FamilyOf(FormatOf(path)).value)
  {
    TableDisjoint();
    TryWritersIsFirstFamily(TABLE, FormatOf(path), completes);
  }

  /** The format of a downloaded file is its appended extension, upper-cased. */
  lemma FormatOfDownload(base: string, f: SuperAudioFormat)
    ensures FormatOf(base + ExtensionFor(f)) == ToUpper(ExtensionFor(f)[1..])
  {
    var ext := ExtensionFor(f);
    assert base + ext == base + ['.'] + ext[1..];
    LastSegmentOfSuffix(base, '.', ext[1..]);
  }

  /** The `.aac` files the AAC mapping produces are never tagged, whatever the
      writers do; `.ogg` goes to the Ogg-Vorbis writer and `.mp3` to the MP3 one. */
  lemma DownloadedFamilies(base: string)
    ensures FamilyOf(FormatOf(base + ExtensionFor(Aac))).None?
    ensures forall completes: Family -> bool :: !TagAudio(base + ExtensionFor(Aac), completes)
    ensures FamilyOf(FormatOf(base + ExtensionFor(Vorbis))) == Some(OggVorbis)
    ensures FamilyOf(FormatOf(base + ExtensionFor(Mp3))) == Some(Mpeg3)
  {
    FormatOfDownload(base, Aac);
    FormatOfDownload(base, Vorbis);
    FormatOfDownload(base, Mp3);
    assert ToUpper("aac") == "AAC";
    assert ToUpper("ogg") == "OGG";
    assert ToUpper("mp3") == "MP3";
    forall completes: Family -> bool
      ensures !TagAudio(base + ExtensionFor(Aac), completes)
    {
      TagAudioIff(base + ExtensionFor(Aac), completes);
    }
  }
}
