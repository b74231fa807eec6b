/** The tag dictionary `get_track_metadata` builds from a catalog track, and
    the flattening `download_track` applies before filling the output-name
    templates: text values pass through, list values are joined with ','. */
module Metadata {
  import opened Text

  datatype Album = Album(name: string, artists: seq<string>, year: int, recordLabel: string)

  datatype Track = Track(name: string, artists: seq<string>, album: Album,
                         number: int, discNumber: int)

  /** A value of the tag dictionary: a plain string or a list of strings. */
  datatype Value = Text(text: string) | Texts(texts: seq<string>)

  const KEYS: set<string> :=
    {"title", "artist", "albumartist", "album", "tracknumber", "date", "copyright", "discnumber"}

  /** `get_track_metadata(track)`. */
  function TrackMetadata(t: Track): (m: map<string, Value>)
    ensures m.Keys == KEYS
    ensures m["tracknumber"].Text? && forall k :: k in m && k != "tracknumber" ==> m[k].Texts?
  {
    map[
      "title" := Texts([t.name]),
      "artist" := Texts(t.artists),
      "albumartist" := Texts(t.album.artists),
      "album" := Texts([t.album.name]),
      "tracknumber" := Text(IntToDecimal(t.number)),
      "date" := Texts([IntToDecimal(t.album.year)]),
      "copyright" := Texts([t.album.recordLabel]),
      "discnumber" := Texts([IntToDecimal(t.discNumber)])
    ]
  }

  /** `v if type(v) == str else ",".join([str(i) for i in v])`. */
  function Flatten(v: Value): string
  {
    match v
    case Text(s) => s
    case Texts(xs) => Join(xs, ',')
  }

  /** The template fields of line 254: every key kept, every value flattened. */
  function TemplateFields(m: map<string, Value>): (fields: map<string, string>)
    ensures fields.Keys == m.Keys
    ensures forall k :: k in m ==> fields[k] == Flatten(m[k])
  {
    map k | k in m :: Flatten(m[k])
  }
}

/** What survives the flattening. */
module MetadataProperties {
  import opened Text
  import opened Metadata

  /** The single-valued fields come through verbatim. */
  lemma SingleValuedFields(t: Track)
    ensures var f := TemplateFields(TrackMetadata(t));
      f.Keys == KEYS
      && f["title"] == t.name && f["album"] == t.album.name && f["copyright"] == t.album.recordLabel
  {
  }

  /** Artist lists are joined with ','; names without a comma split back
      into the same list, and an empty list gives the empty string. */
  lemma ArtistsSplitBack(t: Track)
    requires forall i :: 0 <= i < |t.artists| ==> ',' !in t.artists[i]
    ensures var f := TemplateFields(TrackMetadata(t));
      if t.artists == [] then f["artist"] == "" else Split(f["artist"], ',') == t.artists
  {
    if t.artists != [] {
      SplitJoin(t.artists, ',');
    }
  }

  lemma AlbumArtistsSplitBack(t: Track)
    requires forall i :: 0 <= i < |t.album.artists| ==> ',' !in t.album.artists[i]
    ensures var f := TemplateFields(TrackMetadata(t));
      if t.album.artists == [] then f["albumartist"] == ""
      else Split(f["albumartist"], ',') == t.album.artists
  {
    if t.album.artists != [] {
      SplitJoin(t.album.artists, ',');
    }
  }

  /** The numbers are written in decimal and read back unchanged. */
  lemma NumbersParseBack(t: Track)
    ensures var f := TemplateFields(TrackMetadata(t));
      f["tracknumber"] == IntToDecimal(t.number)
      && f["date"] == IntToDecimal(t.album.year)
      && f["discnumber"] == IntToDecimal(t.discNumber)
    ensures ParseInt(IntToDecimal(t.number)) == t.number
    ensures ParseInt(IntToDecimal(t.album.year)) == t.album.year
    ensures ParseInt(IntToDecimal(t.discNumber)) == t.discNumber
  {
    IntDecimalRoundTrip(t.number);
    IntDecimalRoundTrip(t.album.year);
    IntDecimalRoundTrip(t.discNumber);
  }
}
