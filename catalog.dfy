/** The dispatch half of `download`: a parsed locator becomes the list of
    track downloads it stands for, each with the progress total in force
    when it is started. The catalog answers (album discs, playlist items)
    come from the streaming service, so they are parameters; a lookup that
    raises is None. */
module Catalog {
  import opened Wrappers
  import opened Bytes
  import opened Text
  import opened Locator

  /** How a track id is built; the id constructors belong to the streaming
      library, so only their inputs are kept; whether a constructor accepts
      its input is the parameter `accepts` of `Download`. */
  datatype TrackRef =
    | FromBase62(base62: string)      // TrackId.from_base62(iid)
    | FromHex(hex: string)            // TrackId(hexlify(gid).decode())
    | FromPlaylistItem(base62: string) // TrackId.from_base62(uri suffix, True)

  /** One call of `download_track`, with `progress.total` as it stands then. */
  datatype Job = Job(track: TrackRef, total: nat)

  datatype Disc = Disc(number: int, gids: seq<seq<byte>>)

  datatype Plan =
    | Batch(jobs: seq<Job>)
    | CutShort(jobs: seq<Job>, rejected: TrackRef) // an id constructor raised after `jobs` ran
    | LookupFailed   // the catalog request raised; the exception leaves `download`
    | Unsupported    // no match, or a kind with no branch: only a log line

  /** The sum of `len(disc.track)` over the discs. */
  function TrackCount(discs: seq<Disc>): nat
  {
    if discs == [] then 0
    else TrackCount(discs[..|discs| - 1]) + |discs[|discs| - 1].gids|
  }

  /** The jobs of one disc, started once the disc's tracks are in the total. */
  function DiscJobs(disc: Disc, total: nat): (r: seq<Job>)
    ensures |r| == |disc.gids|
    ensures forall t :: 0 <= t < |r| ==> r[t] == Job(FromHex(HexLify(disc.gids[t])), total)
  {
    seq(|disc.gids|, t requires 0 <= t < |disc.gids| => Job(FromHex(HexLify(disc.gids[t])), total))
  }

  /** The album branch, disc by disc and then track by track. */
  function AlbumPlan(discs: seq<Disc>): (r: seq<Job>)
    ensures |r| == TrackCount(discs)
  {
    if discs == [] then []
    else AlbumPlan(discs[..|discs| - 1]) + DiscJobs(discs[|discs| - 1], TrackCount(discs))
  }

  /** The playlist branch: one job per item, keyed by the text after the
      item URI's last ':', with the item count as the total. */
  function PlaylistPlan(items: seq<string>): (r: seq<Job>)
    ensures |r| == |items|
    ensures forall i :: 0 <= i < |items| ==>
      r[i] == Job(FromPlaylistItem(LastSegment(items[i], ':')), |items|)
  {
    seq(|items|, i requires 0 <= i < |items| =>
      Job(FromPlaylistItem(LastSegment(items[i], ':')), |items|))
  }

  /** The inner loop: one job per track of the disc, all with the same total. */
  method ExpandDisc(disc: Disc, total: nat) returns (jobs: seq<Job>)
    ensures jobs == DiscJobs(disc, total)
  {
    jobs := [];
    for t := 0 to |disc.gids|
      invariant |jobs| == t
      invariant forall i :: 0 <= i < t ==> jobs[i] == Job(FromHex(HexLify(disc.gids[i])), total)
    {
      jobs := jobs + [Job(FromHex(HexLify(disc.gids[t])), total)];
    }
  }

  /** The album loop: `progress.total` grows by each disc's track count
      before that disc's tracks are started. */
  method ExpandAlbum(discs: seq<Disc>) returns (jobs: seq<Job>, total: nat)
    ensures jobs == AlbumPlan(discs)
    ensures total == TrackCount(discs)
  {
    jobs, total := [], 0;
    for d := 0 to |discs|
      invariant jobs == AlbumPlan(discs[..d])
      invariant total == TrackCount(discs[..d])
    {
      assert discs[..d + 1][..d] == discs[..d];
      total := total + |discs[d].gids|;
      var discJobs := ExpandDisc(discs[d], total);
      jobs := jobs + discJobs;
    }
    assert discs[..|discs|] == discs;
  }

  /** The index of the first job whose track id the constructor rejects. */
  function FirstRejected(jobs: seq<Job>, accepts: TrackRef -> bool): (r: Option<nat>)
    ensures r.None? <==> forall i :: 0 <= i < |jobs| ==> accepts(jobs[i].track)
    ensures r.Some? ==> r.value < |jobs| && !accepts(jobs[r.value].track)
    ensures r.Some? ==> forall i :: 0 <= i < r.value ==> accepts(jobs[i].track)
  {
    if jobs == [] then None
    else if !accepts(jobs[0].track) then Some(0)
    else match FirstRejected(jobs[1..], accepts)
      case None => None
      case Some(k) => Some(k + 1)
  }

  /** A rejected job with only accepted jobs before it is the first one. */
  lemma {:induction false} FirstRejectedAt(jobs: seq<Job>, accepts: TrackRef -> bool, i: nat)
    requires i < |jobs| && !accepts(jobs[i].track)
    requires forall k :: 0 <= k < i ==> accepts(jobs[k].track)
    ensures FirstRejected(jobs, accepts) == Some(i)
    decreases i
  {
    if i > 0 {
      assert accepts(jobs[0].track);
      assert forall k :: 0 <= k < i - 1 ==> jobs[1..][k] == jobs[k + 1];
      FirstRejectedAt(jobs[1..], accepts, i - 1);
    }
  }

  /** What running the jobs in order comes to when building a track id can
      raise: every job, or the jobs before the first rejected id. */
  function Started(jobs: seq<Job>, accepts: TrackRef -> bool): (r: Plan)
    ensures r.Batch? || r.CutShort?
    ensures r.Batch? <==> forall i :: 0 <= i < |jobs| ==> accepts(jobs[i].track)
    ensures r.Batch? ==> r.jobs == jobs
    ensures r.CutShort? ==>
      |r.jobs| < |jobs| && r.jobs == jobs[..|r.jobs|] &&
      r.rejected == jobs[|r.jobs|].track && !accepts(r.rejected) &&
      forall i :: 0 <= i < |r.jobs| ==> accepts(jobs[i].track)
  {
    match FirstRejected(jobs, accepts)
    case None => Batch(jobs)
    case Some(i) => CutShort(jobs[..i], jobs[i].track)
  }

  /** The branch loops' `tid = ...; download_track(tid)`: each job's id is
      built just before the job runs, and a rejected id raises out of
      `download`, leaving the jobs already run. */
  method StartJobs(jobs: seq<Job>, accepts: TrackRef -> bool) returns (plan: Plan)
    ensures plan == Started(jobs, accepts)
  {
    var i := 0;
    while i < |jobs| && accepts(jobs[i].track)
      invariant i <= |jobs|
      invariant forall k :: 0 <= k < i ==> accepts(jobs[k].track)
    {
      i := i + 1;
    }
    if i == |jobs| {
      plan := Batch(jobs);
    } else {
      plan := CutShort(jobs[..i], jobs[i].track);
      FirstRejectedAt(jobs, accepts, i);
    }
  }

  /** `download(url)`, with the album and playlist requests and the track id
      constructors' acceptance as parameters. */
  method Download(url: string, album: string -> Option<seq<Disc>>,
                  playlist: string -> Option<seq<string>>,
                  accepts: TrackRef -> bool) returns (plan: Plan)
    ensures plan == Unsupported <==> Parse(url).None?
    ensures plan == LookupFailed ==> Parse(url).Some? && Parse(url).value.kind != Track
    ensures Parse(url).Some? && Parse(url).value.kind == Track ==>
      plan == Started([Job(FromBase62(Parse(url).value.id), 1)], accepts)
    ensures Parse(url).Some? && Parse(url).value.kind == Album ==>
      (match album(Parse(url).value.id)
       case None => plan == LookupFailed
       case Some(discs) => plan == Started(AlbumPlan(discs), accepts))
    ensures Parse(url).Some? && Parse(url).value.kind == Playlist ==>
      (match playlist(Parse(url).value.id)
       case None => plan == LookupFailed
       case Some(items) => plan == Started(PlaylistPlan(items), accepts))
  {
    match Parse(url)
    case None =>
      plan := Unsupported;
    case Some(Locator(Track, id)) =>
      plan := StartJobs([Job(FromBase62(id), 1)], accepts);
    case Some(Locator(Album, id)) =>
      match album(id) {
        case None =>
          plan := LookupFailed;
        case Some(discs) =>
          var jobs, total := ExpandAlbum(discs);
          plan := StartJobs(jobs, accepts);
      }
    case Some(Locator(Playlist, id)) =>
      match playlist(id) {
        case None =>
          plan := LookupFailed;
        case Some(items) =>
          plan := StartJobs(PlaylistPlan(items), accepts);
      }
  }
}

/** What the expansion promises about order, totals and ids. */
module CatalogProperties {
  import opened Bytes
  import opened Text
  import opened Catalog

  lemma {:induction false} TrackCountPrefix(discs: seq<Disc>, d: nat)
    requires d <= |discs|
    ensures TrackCount(discs[..d]) <= TrackCount(discs)
    decreases |discs|
  {
    if d == |discs| {
      assert discs[..d] == discs;
    } else {
      assert discs[..|discs| - 1][..d] == discs[..d];
      TrackCountPrefix(discs[..|discs| - 1], d);
    }
  }

  /** Track t of disc d is job number TrackCount(discs[..d]) + t, and it is
      started with the tracks of discs 0..d counted in the total. */
  lemma {:induction false} AlbumJobAt(discs: seq<Disc>, d: nat, t: nat)
    requires d < |discs| && t < |discs[d].gids|
    ensures TrackCount(discs[..d]) + t < TrackCount(discs)
    ensures AlbumPlan(discs)[TrackCount(discs[..d]) + t]
         == Job(FromHex(HexLify(discs[d].gids[t])), TrackCount(discs[..d + 1]))
    decreases |discs|
  {
    var init := discs[..|discs| - 1];
    if d == |discs| - 1 {
      assert discs[..d] == init;
      assert discs[..d + 1] == discs;
    } else {
      assert init[..d] == discs[..d];
      assert init[..d + 1] == discs[..d + 1];
      AlbumJobAt(init, d, t);
    }
  }

  /** The progress total never falls behind the jobs started: job j sees a
      total above j and at most the album's track count. */
  lemma {:induction false} AlbumTotalsBound(discs: seq<Disc>)
    ensures forall j :: 0 <= j < |AlbumPlan(discs)| ==> j < AlbumPlan(discs)[j].total <= TrackCount(discs)
  {
    if discs != [] {
      AlbumTotalsBound(discs[..|discs| - 1]);
    }
  }

  /** Different gids give different track ids: hexlify loses nothing. */
  lemma DistinctGidsDistinctJobs(disc: Disc, total: nat, t: nat, t': nat)
    requires t < |disc.gids| && t' < |disc.gids| && disc.gids[t] != disc.gids[t']
    ensures DiscJobs(disc, total)[t].track != DiscJobs(disc, total)[t'].track
  {
    if HexLify(disc.gids[t]) == HexLify(disc.gids[t']) {
      HexLifyInjective(disc.gids[t], disc.gids[t']);
    }
  }

  /** A playlist item URI `spotify:track:<id>` yields the job for <id>. */
  lemma PlaylistItemId(items: seq<string>, i: nat, prefix: string, id: string)
    requires i < |items| && items[i] == prefix + [':'] + id && ':' !in id
    ensures PlaylistPlan(items)[i] == Job(FromPlaylistItem(id), |items|)
  {
    LastSegmentOfSuffix(prefix, ':', id);
  }
}
