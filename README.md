# librespot-dl: a verified model of the downloader core

librespot-dl is a command-line tool. It takes a Spotify link to a track,
an album or a playlist and downloads every track the link stands for. For
each track it does the following:

- picks an audio file from the track's list of files, by quality;
- copies the decrypted audio stream to disk in chunks, and pads the file
  with zero bytes up to the size the stream declares;
- names the file from the track's metadata, with an extension that follows
  the stream's format;
- dispatches to a tag writer chosen by the file's extension;
- makes up to five attempts at each download, stopping at the first one
  that does not raise.

This project models that core of `librespot-dl/__main__.py` in Dafny and
proves what it promises. It has these modules:

- `Wrappers`: Option, Result, Min and Max.
- `Bytes`: bytes, zero padding, and `binascii.hexlify` with its inverse.
- `Text`: Python's `str.split`, `split(sep)[-1]`, `sep.join`, ASCII
  `upper()`, and `str(int)` with a parser that inverts it.
- `StreamWriter`:
  - `write_bytes` as imperative code over a `Source` (the audio stream) and
    a `Sink` (the output file);
  - the method is proved against `Pump`, a function that describes the
    chunks the copy loop reads.
- `StreamWriterProperties`: what one copy writes and returns.
- `StableSort`: Python's `sorted` with a key, as a stable insertion sort.
  It is proved sorted, a permutation of its input, and stable.
- `Quality`, `QualityProperties`: `QualityPicker.get_file` and
  `get_vorbis_file`, with reference characterisations of the file each
  one picks.
- `Locator`, `LocatorProperties`: the first match of the regular expression
  `(track|album|playlist)/([a-zA-Z0-9]*)`, read as a leftmost scan.
- `Catalog`, `CatalogProperties`: the dispatch of `download(url)` into
  the list of `download_track` calls it makes. Each call is recorded with
  the progress total in force when it starts.
- `Tagging`, `TaggingProperties`: `tag_audio`'s choice of writer, and the
  extension map of `download_track`.
- `Retry`: the retry loop of `download_track`.
- `Metadata`, `MetadataProperties`: `get_track_metadata` and the
  flattening of its lists into template fields.

Answers from the streaming service are parameters of the model:

- the catalog lookups;
- whether a download attempt raises;
- whether a tag writer completes;
- the bytes of the stream and how short each of its reads is.

## Model

| member | source | states |
|---|---|---|
| Bytes.Zeros | librespot-dl/__main__.py:234 | `b"\x00" * n` has length max(n, 0), and every byte is zero |
| Bytes.HexLify | librespot-dl/__main__.py:299 | hexlify doubles the length and yields only hexadecimal digits |
| Bytes.HexLifyRoundTrip | librespot-dl/__main__.py:299 | unhexlify(hexlify(gid)) == gid |
| Bytes.HexLifyInjective | librespot-dl/__main__.py:299 | two gids with the same hexadecimal text are equal |
| Text.Split | librespot-dl/__main__.py:207 | `s.split(sep)` gives at least one piece, and no piece holds the separator |
| Text.LastSegment | librespot-dl/__main__.py:207 | `s.split(sep)[-1]` is a separator-free suffix of s, preceded by the separator whenever it is shorter than s |
| Text.LastSegmentIsLastPiece | librespot-dl/__main__.py:309 | the text after the last separator is the last element of the split |
| Text.SplitAppendPiece | librespot-dl/__main__.py:309 | appending a separator and a separator-free piece appends exactly that piece to the split |
| Text.SplitJoin | librespot-dl/__main__.py:254 | splitting `",".join(xs)` at ',' gives xs back when no element holds a comma |
| Text.LastSegmentOfSuffix | librespot-dl/__main__.py:309 | for `prefix + ":" + id` with no ':' in id, `split(':')[-1]` is id |
| Text.ToUpper | librespot-dl/__main__.py:207 | `upper()` keeps the length and upper-cases each character in place |
| Text.NatToDecimal | librespot-dl/__main__.py:122-125 | `str(n)` of a natural number is a non-empty string of digits with no leading zero, and starts with '0' only for n = 0 |
| Text.NatDecimalRoundTrip | librespot-dl/__main__.py:122-125 | parsing `str(n)` gives n |
| Text.IntDecimalRoundTrip | librespot-dl/__main__.py:122-125 | `str(n)` of any integer is well formed and parses back to n |
| StreamWriter.Granted | librespot-dl/__main__.py:227 | `fd.read(n)` returns at most n bytes and at most what the stream holds |
| StreamWriter.Source.Read | librespot-dl/__main__.py:227 | a read takes the granted prefix off the front of the stream and uses up one short-read limit |
| StreamWriter.Sink.Write | librespot-dl/__main__.py:233-234 | a write appends all of its bytes and returns their count |
| StreamWriter.PumpStep | librespot-dl/__main__.py:225-233 | a turn that reads k > 0 bytes contributes the first k bytes as the run's first chunk, followed by the rest of the copy |
| StreamWriter.PumpDeliversPrefix | librespot-dl/__main__.py:226-227 | the chunks read are, in order, a prefix of the stream no longer than `size` |
| StreamWriter.PumpChunksNonEmpty | librespot-dl/__main__.py:228-229 | the loop stops at the first empty read, so every chunk it writes is non-empty |
| StreamWriter.ConcatSnoc | librespot-dl/__main__.py:230 | the bytes read grow by exactly the new chunk |
| StreamWriter.WrittenSnoc | librespot-dl/__main__.py:232-233 | the bytes written grow by exactly the transformed new chunk |
| StreamWriter.CopyInvariantAtHalt | librespot-dl/__main__.py:228-229 | when the loop halts, the chunks read so far are the whole run |
| StreamWriter.CopyInvariantStep | librespot-dl/__main__.py:230-233 | one turn keeps the loop invariant: stream = read + unread, file = old file + transformed chunks, and bytes_wrote counts them |
| StreamWriter.CopyTurn | librespot-dl/__main__.py:225-233 | one turn either halts without touching stream or file, or reads 0 < got <= remaining bytes off the stream, writes them transformed, and leaves the rest of the run to do |
| StreamWriter.CopyChunks | librespot-dl/__main__.py:222-233 | the loop consumes exactly the run's chunks from the stream, appends their transformed bytes to the file, returns their count, and reports why it stopped |
| StreamWriter.WriteBytes | librespot-dl/__main__.py:221-235 | the stream and file change as the run says; the result is `bytes_wrote` after zero padding, or StopIteration when `chunk_sizes` runs out |
| StreamWriterProperties.WrittenWithoutTransform | librespot-dl/__main__.py:232 | with no `chunk_process`, the file receives exactly the bytes read |
| StreamWriterProperties.EmptyRequestEndsCopy | librespot-dl/__main__.py:226-229 | once `size - bytes_read` is 0, or a chunk size is 0, the next read is empty and the copy ends normally |
| StreamWriterProperties.PaddedLength | librespot-dl/__main__.py:234-235 | after an empty read the file grows by max(size, bytes_wrote); the transformed bytes come first, and bytes_wrote is returned |
| StreamWriterProperties.VerbatimCopy | librespot-dl/__main__.py:221-235 | without a transform, the file grows by exactly `size` bytes: a prefix of the stream, then zero bytes |
| StreamWriterProperties.DefaultNeverExhausted | librespot-dl/__main__.py:225-229 | with no `chunk_sizes`, every turn asks for the default size, so the loop ends only at an empty read and `write_bytes` never raises StopIteration |
| StreamWriterProperties.DefaultVerbatimCopy | librespot-dl/__main__.py:263 | the download's call `write_bytes(stream, f, size)` returns the number of bytes copied, and the file grows by exactly `size` bytes: a prefix of the stream, then zero bytes |
| StreamWriterProperties.DefaultPaddedLength | librespot-dl/__main__.py:221-235 | with no `chunk_sizes` and any `chunk_process`, the call returns `bytes_wrote`, and the file grows by max(size, bytes_wrote) bytes, the transformed chunks first |
| StreamWriterProperties.CooperativeCopyDrains | librespot-dl/__main__.py:224-229 | when no read is short to zero and chunk sizes last, the copy reads min(size, stream length) bytes and ends at an empty read |
| StreamWriterProperties.CooperativeVerbatimCopy | librespot-dl/__main__.py:221-235 | the file is then the stream cut at `size` and padded to `size`, an exact copy when the lengths agree |
| StreamWriterProperties.ShortStreamExample | librespot-dl/__main__.py:221-235 | a 100-byte stream declared as 150 bytes gives those 100 bytes followed by 50 zero bytes |
| StableSort.InsertMultiset | librespot-dl/__main__.py:49 | insertion adds exactly the inserted element |
| StableSort.InsertKeepsSorted | librespot-dl/__main__.py:49 | inserting into a key-sorted list keeps it key-sorted |
| StableSort.InsertWithKey | librespot-dl/__main__.py:49 | insertion puts an element before the elements of its key that were already there |
| StableSort.SortSortsAndPermutes | librespot-dl/__main__.py:49 | `sorted(key=...)` orders by key and is a permutation of its input |
| StableSort.SortedEnds | librespot-dl/__main__.py:49-53 | the first and last elements of a sorted list bound every element's key |
| StableSort.SortIsStable | librespot-dl/__main__.py:49 | elements with equal keys keep their input order |
| StableSort.WithKeyAppend | librespot-dl/__main__.py:49 | selecting one key distributes over concatenation |
| StableSort.WithKeySnoc | librespot-dl/__main__.py:51 | an element at the end of a list is the last of its key |
| Quality.Rank | librespot-dl/__main__.py:49 | the rank table gives NORMAL 0, HIGH 1 and VERY_HIGH 2 |
| Quality.Formatted | librespot-dl/__main__.py:48 | the filter never lengthens the list |
| Quality.FormattedMembers | librespot-dl/__main__.py:48 | the filter keeps exactly the files whose format is set, and is empty iff no file has a format |
| Quality.GetFile | librespot-dl/__main__.py:47-53 | get_file has an answer exactly when some file has a format |
| Quality.GetVorbisFile | librespot-dl/__main__.py:39-45 | get_vorbis_file returns the first formatted Vorbis file, and None iff there is none |
| QualityProperties.FormattedWithKey | librespot-dl/__main__.py:48-49 | the formatted files of one tier, in input order, are that tier's candidates |
| QualityProperties.LastCandidate | librespot-dl/__main__.py:51 | the last candidate of a tier is a formatted file of that tier with none of the tier after it |
| QualityProperties.FirstCandidate | librespot-dl/__main__.py:53 | the first candidate of a tier is a formatted file of that tier with none of the tier before it |
| QualityProperties.NoCandidates | librespot-dl/__main__.py:48-49 | a tier with no candidates has no formatted file |
| QualityProperties.SortedCandidates | librespot-dl/__main__.py:49 | the sorted list keeps each tier's files in input order |
| QualityProperties.SortedBounds | librespot-dl/__main__.py:49-53 | the first sorted file has the lowest tier and the last one the highest |
| QualityProperties.BestIsLastOfTopTier | librespot-dl/__main__.py:50-51 | PREFER_BEST_QUALITY returns the last file, in input order, of the highest tier present, and only that file |
| QualityProperties.WorstIsFirstOfBottomTier | librespot-dl/__main__.py:52-53 | PREFER_WORST_QUALITY returns the first file, in input order, of the lowest tier present, and only that file |
| QualityProperties.PickIsFormattedEntry | librespot-dl/__main__.py:47-53 | any file picked is a formatted entry of the input list |
| Locator.Keyword | librespot-dl/__main__.py:277 | each alternative of the regular expression is at least five letters long and holds no '/' |
| Locator.KindAt | librespot-dl/__main__.py:277 | the alternation answers only where its keyword and a slash begin |
| Locator.AlnumRun | librespot-dl/__main__.py:277 | the greedy `[a-zA-Z0-9]*` is the longest alphanumeric prefix |
| Locator.NoKeywordStep | librespot-dl/__main__.py:281 | a position where no keyword begins can be added to a keyword-free stretch |
| Locator.SearchNone | librespot-dl/__main__.py:281 | the scan from a position finds nothing iff no keyword and slash begin at or after it |
| Locator.SearchHere | librespot-dl/__main__.py:277-281 | where a keyword and slash begin, the scan stops with the match there |
| Locator.SearchFindsFirst | librespot-dl/__main__.py:281 | any match the scan finds begins at the first position, at or after the start, where a keyword and slash begin |
| Locator.Parse | librespot-dl/__main__.py:277-286 | `next(finditer)` fails iff no keyword and slash occur; otherwise it is the match at the leftmost such position |
| LocatorProperties.KeywordsExclusive | librespot-dl/__main__.py:277 | at most one alternative matches at a position |
| LocatorProperties.KindAtNone | librespot-dl/__main__.py:277 | the alternation fails exactly where none of the three keywords begins |
| LocatorProperties.SearchSkips | librespot-dl/__main__.py:281 | the scan passes over keyword-free stretches unchanged |
| LocatorProperties.AlnumRunOfId | librespot-dl/__main__.py:277 | an alphanumeric id ended by text end or by a non-alphanumeric character is read whole |
| LocatorProperties.KeywordInPrefix | librespot-dl/__main__.py:277 | a keyword that ends inside a prefix is found in the prefix alone |
| LocatorProperties.KeywordSpansNoSlash | librespot-dl/__main__.py:277 | no keyword match spans a '/' |
| LocatorProperties.NoMatchAcrossPrefix | librespot-dl/__main__.py:277 | no keyword begins before a slash-terminated prefix and ends after it |
| LocatorProperties.PrefixSkipped | librespot-dl/__main__.py:281 | a slash-terminated prefix without matches holds none after anything is appended |
| LocatorProperties.KindAtLink | librespot-dl/__main__.py:277 | the alternation picks the keyword a link spells out |
| LocatorProperties.SearchAtLink | librespot-dl/__main__.py:277-284 | the scan reads the kind and the id where a keyword, a slash and an id begin |
| LocatorProperties.ParseLink | librespot-dl/__main__.py:277-286 | for prefix + kind + '/' + id + suffix, where the prefix ends in '/' and holds no keyword and the suffix does not start with an alphanumeric character, the parse gives that kind and id |
| Catalog.DiscJobs | librespot-dl/__main__.py:298-300 | one job per track of the disc, in disc order, id from the hexlified gid, with the current total |
| Catalog.AlbumPlan | librespot-dl/__main__.py:294-300 | an album gives as many jobs as the discs have tracks |
| Catalog.PlaylistPlan | librespot-dl/__main__.py:307-310 | one job per playlist item, in order, keyed by the text after the item URI's last ':', with the item count as total |
| Catalog.ExpandDisc | librespot-dl/__main__.py:298-300 | the inner loop produces exactly the disc's jobs |
| Catalog.ExpandAlbum | librespot-dl/__main__.py:294-300 | the album loop produces exactly the album's jobs and ends with the total at the track count |
| Catalog.FirstRejected | librespot-dl/__main__.py:298-310 | the first job whose track id is rejected: none exactly when every id is accepted, otherwise a rejected job with only accepted jobs before it |
| Catalog.FirstRejectedAt | librespot-dl/__main__.py:298-310 | a rejected job preceded only by accepted jobs is the one the id constructors fail on first |
| Catalog.Started | librespot-dl/__main__.py:298-310 | the jobs that run are all of them exactly when every id is accepted; otherwise the proper prefix before the first rejected id, which is named |
| Catalog.StartJobs | librespot-dl/__main__.py:307-310 | building each id just before its job runs, the loop stops at the first rejected id with exactly the jobs `Started` names |
| Catalog.Download | librespot-dl/__main__.py:276-312 | an unsupported URL starts nothing; a track link gives its one job with total 1, or no job when its id is rejected; an album or playlist gives its plan up to the first rejected id, or a failure when the lookup raises |
| CatalogProperties.TrackCountPrefix | librespot-dl/__main__.py:297 | the running total never exceeds the album's track count |
| CatalogProperties.AlbumJobAt | librespot-dl/__main__.py:295-300 | track t of disc d is job TrackCount(discs[..d]) + t, started with discs 0..d counted in the total |
| CatalogProperties.AlbumTotalsBound | librespot-dl/__main__.py:294-300 | job j starts with a total above j and at most the album's track count |
| CatalogProperties.DistinctGidsDistinctJobs | librespot-dl/__main__.py:299 | distinct gids give distinct track ids |
| CatalogProperties.PlaylistItemId | librespot-dl/__main__.py:309 | the item `spotify:track:<id>` gives the job for id |
| Tagging.FormatOf | librespot-dl/__main__.py:207 | the format holds no '.' |
| Tagging.FirstFamily | librespot-dl/__main__.py:208-216 | no table row matches exactly when the format is in no extension set |
| Tagging.ExtensionFor | librespot-dl/__main__.py:256 | each extension is '.' followed by three characters with no further '.' |
| TaggingProperties.TableDisjoint | librespot-dl/__main__.py:208-213 | no format is in two rows of the dispatch table |
| TaggingProperties.Absent | librespot-dl/__main__.py:214-219 | a format in no row starts no writer, and `tag_audio` returns False |
| TaggingProperties.DisjointTail | librespot-dl/__main__.py:208-213 | the rest of a disjoint table is disjoint and misses the first row's formats |
| TaggingProperties.AttemptedIsFirstFamily | librespot-dl/__main__.py:208-218 | with disjoint rows, only the writer of the format's family starts |
| TaggingProperties.TryWritersIsFirstFamily | librespot-dl/__main__.py:208-219 | with disjoint rows, the loop returns True iff the format has a family and that writer completes |
| TaggingProperties.AtMostOneWriter | librespot-dl/__main__.py:207-218 | at most one writer runs for a file: the one of its family |
| TaggingProperties.TagAudioIff | librespot-dl/__main__.py:207-219 | `tag_audio` returns True iff the file's format has a writer and that writer completes; a raise or an unknown format gives False |
| TaggingProperties.FormatOfDownload | librespot-dl/__main__.py:256-257 | the format `tag_audio` reads from a downloaded file is its appended extension, upper-cased |
| TaggingProperties.DownloadedFamilies | librespot-dl/__main__.py:207-219 | the `.aac` files of the extension map are never tagged; `.ogg` goes to the Ogg writer and `.mp3` to the MP3 writer |
| Retry.FirstSuccess | librespot-dl/__main__.py:266-269 | the first attempt below n that completes, or None iff none completes |
| Retry.DownloadTrack | librespot-dl/__main__.py:265-274 | blocking: the job runs until its first completing attempt, at most five times, each failure is logged with its index, and after five failures the give-up line reports 4; non-blocking: one submission |
| Retry.DownloadAll | librespot-dl/__main__.py:287-310 | a batch reports each job as done iff one of its five attempts completes, and a failing job does not stop the batch |
| Metadata.TrackMetadata | librespot-dl/__main__.py:116-126 | the dictionary has the eight tag keys; `tracknumber` is a string and every other value a list |
| Metadata.TemplateFields | librespot-dl/__main__.py:254 | every key is kept and every value flattened: strings as they are, lists joined with ',' |
| MetadataProperties.SingleValuedFields | librespot-dl/__main__.py:254 | the single-valued title, album and copyright of `get_track_metadata` reach the templates unchanged |
| MetadataProperties.ArtistsSplitBack | librespot-dl/__main__.py:254 | the artist field splits back into the artist list when no name holds a comma; an empty list gives "" |
| MetadataProperties.AlbumArtistsSplitBack | librespot-dl/__main__.py:254 | the same holds for the album artists |
| MetadataProperties.NumbersParseBack | librespot-dl/__main__.py:122-125 | track number, year and disc number are written in decimal, reach the templates as that text, and read back unchanged |

## Left out

- `login` (lines 97-114), `parse_args` and `setup_logging` (55-95), and the
  thread pool set-up and shutdown (26, 320): these are configuration,
  network sessions and threads.
- `get_image` (237-243): an HTTP request. Its hexlify of the file id is the
  same `Bytes.HexLify`.
- The container tag writers `mp4`, `mp3`, `flac` and `ogg` (128-205): they
  belong to the tagging library. Each writer is only "completes or raises"
  (the `completes` parameter). The truthiness of `method() or True` does not
  matter, because the result is True either way.
- The output-name templates `args.output.format(**meta)` and
  `args.template.format(**meta)` (255), `os.makedirs` and `open` (259-263):
  the model stops at the template fields.
- The progress bar: `progress.update` (231) is a display side effect.
  `progress.total` is kept as the total each job starts with.
- Log lines are not modelled as text. Their content is kept where it
  carries information: the failed attempt indices and the give-up index.
- Retry.DownloadTrack: the non-blocking branch only records the
  submission. What the pool does with the job later is concurrency.
- Catalog.Download: the track id constructors `TrackId.from_base62` (289,
  309) and `TrackId(...)` (299) come from the streaming library. The model
  keeps their inputs (`TrackRef`) and takes which inputs they accept as the
  parameter `accepts`, for instance whether the empty id the regex allows
  is rejected. An error from `AlbumId.from_base62`, `PlaylistId` or a
  service request is folded into the lookup returning None.
- Catalog.Download: the parse does not stop `download`. A URL with no
  match leaves `itype` at None and reaches the "unsupported type" log
  line, which is `Unsupported` here.
- Quality.GetFile: with no formatted file, Python's `ffiles[-1]` or
  `ffiles[0]` raises IndexError. The model returns None instead of
  requiring a non-empty list.
- Quality.GetFile: the audio-quality table of the streaming library is a
  parameter (`quality`).
- Quality.GetVorbisFile: the super-format table of the streaming library
  is a parameter (`superOf`).
- StreamWriter.WriteBytes: `chunk_sizes` is a finite sequence of sizes.
  Taking one more size than it holds is `StopIteration`, which is a
  `Failure` result.
- StreamWriter.WriteBytes: how short each read of the stream is comes from
  the decrypting stream. It is a parameter: the list of per-read limits.
- StreamWriter.WriteBytes: `out_fd.write` is taken to write everything it
  is given, as a regular file does.
- Text.ToUpper: only ASCII letters are upper-cased. Python's `upper()` also
  maps other Unicode letters, some of them onto ASCII text of another
  length: the ligature 'ﬂ' becomes "FL", so `"song.ﬂac"` has the format
  "FLAC" in Python. Tagging.FormatOf, TaggingProperties.Absent,
  TaggingProperties.AtMostOneWriter and TaggingProperties.TagAudioIff
  therefore describe `tag_audio` only for paths whose extension is ASCII.
  The program calls `tag_audio` (line 264) only on paths it built with an
  extension from the map at lines 256-257 (`.aac`, `.ogg` or `.mp3`), and
  TaggingProperties.DownloadedFamilies covers exactly those paths.
- StreamWriter.CopyChunks: the short-read limits the stream still has
  pending after the copy are not stated; the contract covers the bytes
  left in the stream, the file, the count and the reason the loop stopped.
  The same holds for StreamWriter.WriteBytes.
- Metadata.TrackMetadata: the service's track record is reduced to the
  fields `get_track_metadata` reads.
