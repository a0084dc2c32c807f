/**
 * Remapping a missing file onto the file that replaced it: the target's content moves under the missing
 * file's id, every reference to the target follows, and the garbage collection that ends the operation
 * removes what could not move.  Playlists are their ordered track lists.
 */
module Maintenance {
  import opened Wrappers
  import PlaylistPositions

  datatype MediaFile = MediaFile(missing: bool, albumId: string, createdAt: int, averageRating: real, content: string)

  /** artists: the artists the album credits. */
  datatype Album = Album(createdAt: int, averageRating: real, artists: set<string>)

  datatype ItemType = MediaFileItem | AlbumItem | ArtistItem | PlaylistItem

  /** Annotations and bookmarks are unique per user and item. */
  datatype Key = Key(user: string, itemType: ItemType, item: string)
  datatype Annotation = Annotation(rating: int, rest: string)
  datatype Bookmark = Bookmark(position: int, comment: string)
  datatype Buffered = Buffered(user: string, service: string, mediaFile: string, playTime: int)

  /** How an average is computed from the users' positive ratings. */
  type Average = set<(string, int)> -> real

  // ---------------------------------------------------------------------------------------------
  // UPDATE OR IGNORE

  function Lookup<K, V>(t: map<K, V>, k: K): Option<V> { if k in t then Some(t[k]) else None }

  function To(k: Key, item: string): Key { k.(item := item) }

  /** What the row of key k holds after every row of prev that can move has moved to next: a row of
      next stays, and a row of prev whose place is taken stays behind. */
  function RowAfter<V>(t: map<Key, V>, itemType: ItemType, prev: string, next: string, k: Key): Option<V> {
    if k.itemType != itemType || (k.item != prev && k.item != next) then Lookup(t, k)
    else if k.item == next then (if k in t then Some(t[k]) else Lookup(t, To(k, prev)))
    else if To(k, next) in t then Lookup(t, k) else None
  }

  function Reassigned<V>(t: map<Key, V>, itemType: ItemType, prev: string, next: string): map<Key, V> {
    var keys := t.Keys + set x | x in t :: To(x, next);
    map k | k in keys && RowAfter(t, itemType, prev, next, k).Some? :: RowAfter(t, itemType, prev, next, k).value
  }

  lemma ReassignedAt<V>(t: map<Key, V>, itemType: ItemType, prev: string, next: string, k: Key)
    ensures Lookup(Reassigned(t, itemType, prev, next), k) == RowAfter(t, itemType, prev, next, k)
  {
  }

  lemma SameRows<V>(a: map<Key, V>, b: map<Key, V>)
    requires forall k :: Lookup(a, k) == Lookup(b, k)
    ensures a == b
  {
    forall k ensures (k in a <==> k in b) && (k in a ==> a[k] == b[k]) { assert Lookup(a, k) == Lookup(b, k); }
  }

  /** The rows left to visit are as they were, every other row is as it will be. */
  ghost predicate PartlyMoved<V(!new)>(t: map<Key, V>, itemType: ItemType, prev: string, next: string, todo: set<Key>,
                                       out: map<Key, V>) {
    forall k :: Lookup(out, k) == if To(k, prev) in todo then Lookup(t, k) else RowAfter(t, itemType, prev, next, k)
  }

  lemma MoveOne<V(!new)>(t: map<Key, V>, itemType: ItemType, prev: string, next: string, todo: set<Key>,
                         out: map<Key, V>, x: Key)
    requires prev != next && PartlyMoved(t, itemType, prev, next, todo, out)
    requires x in todo && x in t && x.itemType == itemType && x.item == prev
    requires forall k :: k in todo ==> k.itemType == itemType && k.item == prev
    ensures Lookup(out, x) == Some(t[x]) && (To(x, next) in out <==> To(x, next) in t)
    ensures PartlyMoved(t, itemType, prev, next, todo - {x},
                        if To(x, next) in out then out else (out - {x})[To(x, next) := t[x]])
  {
    assert To(x, prev) == x && To(To(x, next), prev) == x;
    assert Lookup(out, x) == Lookup(t, x) && Lookup(out, To(x, next)) == Lookup(t, To(x, next));
    var out' := if To(x, next) in out then out else (out - {x})[To(x, next) := t[x]];
    forall k
      ensures Lookup(out', k) ==
              if To(k, prev) in todo - {x} then Lookup(t, k) else RowAfter(t, itemType, prev, next, k)
    {
      assert Lookup(out, k) == if To(k, prev) in todo then Lookup(t, k) else RowAfter(t, itemType, prev, next, k);
      if To(k, prev) == x {
        assert k == To(x, k.item);
      }
    }
  }

  /** The statement visits the rows of prev in any order, and skips a row whose new key is taken. */
  method UpdateOrIgnore<V(!new)>(t: map<Key, V>, itemType: ItemType, prev: string, next: string)
    returns (out: map<Key, V>)
    requires prev != next
    ensures out == Reassigned(t, itemType, prev, next)
    ensures forall user :: var mine, theirs := Key(user, itemType, next), Key(user, itemType, prev);
                           && Lookup(out, mine) == (if mine in t then Some(t[mine]) else Lookup(t, theirs))
                           && Lookup(out, theirs) == if mine in t then Lookup(t, theirs) else None
    ensures forall k: Key :: k.itemType != itemType || (k.item != prev && k.item != next) ==>
              Lookup(out, k) == Lookup(t, k)
  {
    out := t;
    var todo := set k | k in t && k.itemType == itemType && k.item == prev;
    ghost var rows := todo;
    forall k
      ensures Lookup(t, k) == if To(k, prev) in todo then Lookup(t, k) else RowAfter(t, itemType, prev, next, k)
    {
      if k.item == prev { assert To(k, prev) == k; }
    }
    while todo != {}
      invariant todo <= rows && PartlyMoved(t, itemType, prev, next, todo, out)
      decreases |todo|
    {
      var x :| x in todo;
      MoveOne(t, itemType, prev, next, todo, out, x);
      if To(x, next) !in out { out := (out - {x})[To(x, next) := out[x]]; }
      todo := todo - {x};
    }
    forall k ensures Lookup(out, k) == Lookup(Reassigned(t, itemType, prev, next), k) {
      ReassignedAt(t, itemType, prev, next, k);
    }
    SameRows(out, Reassigned(t, itemType, prev, next));
    forall k ensures Lookup(out, k) == RowAfter(t, itemType, prev, next, k) {
      ReassignedAt(t, itemType, prev, next, k);
    }
  }

  // ---------------------------------------------------------------------------------------------
  // The statements

  function Rename(id: string, prev: string, next: string): string { if id == prev then next else id }

  function RenameAll(ids: seq<string>, prev: string, next: string): seq<string> {
    seq(|ids|, i requires 0 <= i < |ids| => Rename(ids[i], prev, next))
  }

  /** A buffered play moves unless the same play is already buffered for next. */
  function RenameBuffer(buffer: set<Buffered>, prev: string, next: string): set<Buffered> {
    (set b | b in buffer && (b.mediaFile != prev || b.(mediaFile := next) in buffer)) +
    (set b | b in buffer && b.mediaFile == prev :: b.(mediaFile := next))
  }

  /** Play by play: one of prev moves, and stays too only when next had it already. */
  lemma BufferedPlay(buffer: set<Buffered>, prev: string, next: string, b: Buffered)
    requires prev != next && b.mediaFile == prev
    ensures var r, moved := RenameBuffer(buffer, prev, next), b.(mediaFile := next);
            && (moved in r <==> b in buffer || moved in buffer) && (b in r <==> b in buffer && moved in buffer)
  {
    var moved := b.(mediaFile := next);
    if b in buffer { assert moved == b.(mediaFile := next); }
    if moved in RenameBuffer(buffer, prev, next) && moved !in buffer {
      var c :| c in buffer && c.mediaFile == prev && c.(mediaFile := next) == moved;
      assert c == b;
    }
  }

  function Ratings(annotations: map<Key, Annotation>, itemType: ItemType, item: string): set<(string, int)> {
    set k | k in annotations && k.itemType == itemType && k.item == item && annotations[k].rating > 0
      :: (k.user, annotations[k].rating)
  }

  /** The rows of a type whose item is among those given; rows of other types stay. */
  function Cleaned<V>(t: map<Key, V>, itemType: ItemType, items: set<string>): map<Key, V> {
    map k | k in t && (k.itemType != itemType || k.item in items) :: t[k]
  }

  predicate HasTrack(files: map<string, MediaFile>, album: string) {
    exists f :: f in files && files[f].albumId == album
  }

  /** The target's row under the missing file's id, which keeps its creation time; the target's own row
      is gone. */
  function FilesRemapped(files: map<string, MediaFile>, missing: string, target: string, rating: real):
    map<string, MediaFile>
    requires missing in files && target in files
  {
    files[missing := files[target].(createdAt := files[missing].createdAt, averageRating := rating)] - {target}
  }

  function ListsRenamed(lists: map<string, seq<string>>, prev: string, next: string): map<string, seq<string>> {
    map p | p in lists :: RenameAll(lists[p], prev, next)
  }

  /** Every list has next wherever it had prev, and is otherwise as it was. */
  lemma RenamedAt(lists: map<string, seq<string>>, prev: string, next: string, p: string)
    ensures p in ListsRenamed(lists, prev, next) <==> p in lists
    ensures p in lists ==> var tracks, renamed := lists[p], ListsRenamed(lists, prev, next)[p];
                           |renamed| == |tracks| && forall i :: 0 <= i < |tracks| ==>
                               renamed[i] == if tracks[i] == prev then next else tracks[i]
  {
  }

  function ListsExisting(lists: map<string, seq<string>>, files: set<string>): map<string, seq<string>> {
    map p | p in lists :: PlaylistPositions.Existing(lists[p], files)
  }

  function Rated(files: map<string, MediaFile>, id: string, rating: real): map<string, MediaFile>
    requires id in files
  {
    files[id := files[id].(averageRating := rating)]
  }

  /** The file changed album, and no track is left on the old one; both albums are known. */
  predicate LeftEmpty(files: map<string, MediaFile>, prev: string, next: string) {
    prev != next && !HasTrack(files, prev) && prev != "" && next != ""
  }

  /** The album whose annotations follow, if the file leaves it empty. */
  datatype Follow = Stay | Follow(prev: string, next: string)

  /** The annotations once the target's have followed, and the old album's when it was left empty. */
  function AnnotationsMoved(annotations: map<Key, Annotation>, missing: string, target: string, follow: Follow):
    map<Key, Annotation>
  {
    var moved := Reassigned(annotations, MediaFileItem, target, missing);
    if follow.Follow? then Reassigned(moved, AlbumItem, follow.prev, follow.next) else moved
  }

  /** The albums once the new one has taken the ratings of both and, when both exist, the old one's age. */
  function AlbumsFollowed(albums: map<string, Album>, prev: string, next: string, rating: real): map<string, Album> {
    if next !in albums then albums
    else
      var rated := if prev == "" || next == "" then albums[next] else albums[next].(averageRating := rating);
      albums[next := if prev in albums then rated.(createdAt := albums[prev].createdAt) else rated]
  }

  function AlbumsWithTracks(albums: map<string, Album>, files: map<string, MediaFile>): map<string, Album> {
    map a | a in albums && HasTrack(files, a) :: albums[a]
  }

  function CreditedArtists(artists: set<string>, albums: map<string, Album>): set<string> {
    set x | x in artists && exists a :: a in albums && x in albums[a].artists
  }

  // ---------------------------------------------------------------------------------------------
  // The stages of a collection

  /** The stages, in order: albums, artists, then the annotations of albums, artists, files and playlists,
      then bookmarks and orphan tracks. */
  const ALL_STAGES: nat := 8

  /** What exists, of each kind. */
  datatype Live = Live(files: set<string>, albums: set<string>, artists: set<string>, playlists: set<string>)

  /** The row is still there after so many stages. */
  predicate Survives(k: Key, live: Live, stage: nat) {
    match k.itemType
    case AlbumItem => stage < 3 || k.item in live.albums
    case ArtistItem => stage < 4 || k.item in live.artists
    case MediaFileItem => stage < 5 || k.item in live.files
    case PlaylistItem => stage < 6 || k.item in live.playlists
  }

  function AnnotationsKept(annotations: map<Key, Annotation>, live: Live, stage: nat): map<Key, Annotation> {
    map k | k in annotations && Survives(k, live, stage) :: annotations[k]
  }

  lemma KeptAt(annotations: map<Key, Annotation>, live: Live, stage: nat, k: Key)
    ensures Lookup(AnnotationsKept(annotations, live, stage), k) ==
              if Survives(k, live, stage) then Lookup(annotations, k) else None
  {
  }

  lemma KeptBeforeThree(annotations: map<Key, Annotation>, live: Live)
    ensures forall stage: nat :: stage < 3 ==> AnnotationsKept(annotations, live, stage) == annotations
  {
  }

  function StageType(stage: nat): ItemType
    requires 2 <= stage < 6
  {
    match stage case 2 => AlbumItem case 3 => ArtistItem case 4 => MediaFileItem case _ => PlaylistItem
  }

  function OfType(live: Live, itemType: ItemType): set<string> {
    match itemType
    case MediaFileItem => live.files
    case AlbumItem => live.albums
    case ArtistItem => live.artists
    case PlaylistItem => live.playlists
  }

  /** One more stage cleans the rows of its type. */
  lemma KeptNext(annotations: map<Key, Annotation>, live: Live, stage: nat)
    requires 2 <= stage < 6
    ensures Cleaned(AnnotationsKept(annotations, live, stage), StageType(stage), OfType(live, StageType(stage)))
         == AnnotationsKept(annotations, live, stage + 1)
  {
  }

  // ---------------------------------------------------------------------------------------------
  // What a remap keeps

  /** Whose row a user has on an item afterwards: on the survivor their own, else the discarded file's;
      on the discarded file and on files that do not exist none; elsewhere the one they had. */
  function RowRemapped<V>(t: map<Key, V>, files: set<string>, missing: string, target: string,
                          user: string, item: string): Option<V>
  {
    var k := Key(user, MediaFileItem, item);
    if item == missing then (if k in t then Some(t[k]) else Lookup(t, Key(user, MediaFileItem, target)))
    else if item == target || item !in files then None
    else Lookup(t, k)
  }

  lemma CleanedAt<V>(t: map<Key, V>, itemType: ItemType, items: set<string>, k: Key)
    ensures Lookup(Cleaned(t, itemType, items), k) ==
              if k.itemType == itemType && k.item !in items then None else Lookup(t, k)
  {
  }

  lemma BookmarksAfter(bookmarks: map<Key, Bookmark>, files: set<string>, missing: string, target: string,
                       user: string, item: string)
    requires missing in files && missing != target
    ensures var moved := Reassigned(bookmarks, MediaFileItem, target, missing);
            var after := Cleaned(moved, MediaFileItem, files - {target});
            Lookup(after, Key(user, MediaFileItem, item)) == RowRemapped(bookmarks, files, missing, target, user, item)
  {
    var k := Key(user, MediaFileItem, item);
    ReassignedAt(bookmarks, MediaFileItem, target, missing, k);
    CleanedAt(Reassigned(bookmarks, MediaFileItem, target, missing), MediaFileItem, files - {target}, k);
  }

  lemma MovedAt(annotations: map<Key, Annotation>, missing: string, target: string, follow: Follow, k: Key)
    requires k.itemType != AlbumItem
    ensures Lookup(AnnotationsMoved(annotations, missing, target, follow), k) ==
              RowAfter(annotations, MediaFileItem, target, missing, k)
  {
    ReassignedAt(annotations, MediaFileItem, target, missing, k);
    if follow.Follow? {
      ReassignedAt(Reassigned(annotations, MediaFileItem, target, missing), AlbumItem, follow.prev, follow.next, k);
    }
  }

  lemma AnnotationsAfter(annotations: map<Key, Annotation>, files: set<string>, live: Live,
                         missing: string, target: string, follow: Follow, user: string, item: string)
    requires missing in files && missing != target && live.files == files - {target}
    ensures var after := AnnotationsKept(AnnotationsMoved(annotations, missing, target, follow), live, ALL_STAGES);
            Lookup(after, Key(user, MediaFileItem, item)) ==
            RowRemapped(annotations, files, missing, target, user, item)
  {
    var k := Key(user, MediaFileItem, item);
    MovedAt(annotations, missing, target, follow, k);
    KeptAt(AnnotationsMoved(annotations, missing, target, follow), live, ALL_STAGES, k);
  }

  /** When the old album is left empty, each user's row on the new one is their own, else the old one's. */
  lemma AlbumAnnotationsAfter(annotations: map<Key, Annotation>, live: Live, missing: string, target: string,
                              oldAlbum: string, newAlbum: string, user: string)
    requires newAlbum in live.albums && oldAlbum != newAlbum
    ensures var k := Key(user, AlbumItem, newAlbum);
            var moved := AnnotationsMoved(annotations, missing, target, Follow(oldAlbum, newAlbum));
            Lookup(AnnotationsKept(moved, live, ALL_STAGES), k) ==
            if k in annotations then Some(annotations[k]) else Lookup(annotations, Key(user, AlbumItem, oldAlbum))
  {
    var k := Key(user, AlbumItem, newAlbum);
    var files := Reassigned(annotations, MediaFileItem, target, missing);
    ReassignedAt(annotations, MediaFileItem, target, missing, k);
    ReassignedAt(annotations, MediaFileItem, target, missing, To(k, oldAlbum));
    ReassignedAt(files, AlbumItem, oldAlbum, newAlbum, k);
    KeptAt(AnnotationsMoved(annotations, missing, target, Follow(oldAlbum, newAlbum)), live, ALL_STAGES, k);
  }

  /** A playlist keeps its length and its order, with the survivor at every position of the discarded
      file, if and only if all its tracks were files. */
  lemma PlaylistAfter(tracks: seq<string>, files: set<string>, missing: string, target: string)
    requires missing in files && target in files && missing != target
    ensures var after := PlaylistPositions.Existing(RenameAll(tracks, target, missing), files - {target});
            && (after == RenameAll(tracks, target, missing) <==> forall i :: 0 <= i < |tracks| ==> tracks[i] in files)
            && target !in after && |RenameAll(tracks, target, missing)| == |tracks|
            && forall i :: 0 <= i < |tracks| ==>
                 RenameAll(tracks, target, missing)[i] == if tracks[i] == target then missing else tracks[i]
  {
    var renamed := RenameAll(tracks, target, missing);
    PlaylistPositions.ExistingAll(renamed, files - {target});
    assert forall i :: 0 <= i < |tracks| ==>
             renamed[i] == Rename(tracks[i], target, missing) &&
                 (renamed[i] in files - {target} <==> tracks[i] in files);
  }

  /** Every buffered play is still there once, under the survivor's id, and none names the discarded file. */
  lemma BufferAfter(buffer: set<Buffered>, missing: string, target: string)
    requires missing != target
    ensures (set b | b in RenameBuffer(buffer, target, missing) && b.mediaFile != target)
         == (set b | b in buffer :: b.(mediaFile := Rename(b.mediaFile, target, missing)))
  {
  }

  /** The survivor's cached average is that of the ratings it has after any number of stages. */
  lemma RatingsKept(annotations: map<Key, Annotation>, live: Live, missing: string, target: string, follow: Follow,
                    stage: nat)
    requires missing in live.files && missing != target
    ensures Ratings(AnnotationsKept(AnnotationsMoved(annotations, missing, target, follow), live, stage),
                    MediaFileItem, missing)
         == Ratings(Reassigned(annotations, MediaFileItem, target, missing), MediaFileItem, missing)
  {
    var moved := Reassigned(annotations, MediaFileItem, target, missing);
    var kept := AnnotationsKept(AnnotationsMoved(annotations, missing, target, follow), live, stage);
    forall user
      ensures Lookup(kept, Key(user, MediaFileItem, missing)) == Lookup(moved, Key(user, MediaFileItem, missing))
    {
      MovedAt(annotations, missing, target, follow, Key(user, MediaFileItem, missing));
      KeptAt(AnnotationsMoved(annotations, missing, target, follow), live, stage, Key(user, MediaFileItem, missing));
      ReassignedAt(annotations, MediaFileItem, target, missing, Key(user, MediaFileItem, missing));
    }
    SameRatings(kept, moved, missing);
  }

  lemma SameRatings(a: map<Key, Annotation>, b: map<Key, Annotation>, item: string)
    requires forall user :: Lookup(a, Key(user, MediaFileItem, item)) == Lookup(b, Key(user, MediaFileItem, item))
    ensures Ratings(a, MediaFileItem, item) == Ratings(b, MediaFileItem, item)
  {
    forall k: Key | k.itemType == MediaFileItem && k.item == item ensures Lookup(a, k) == Lookup(b, k) {
      assert k == Key(k.user, MediaFileItem, item);
    }
  }

  // ---------------------------------------------------------------------------------------------
  // The operation

  datatype Outcome = Done | SameFile | NotFound | NotMissing | TargetMissing | TransactionFailed | CollectionFailed

  class Library {
    const average: Average
    var mediaFiles: map<string, MediaFile>
    var albums: map<string, Album>
    var artists: set<string>
    var annotations: map<Key, Annotation>
    var bookmarks: map<Key, Bookmark>
    var playlists: map<string, seq<string>>
    var scrobbles: seq<string>
    var buffer: set<Buffered>

    /** Ids are never empty. */
    ghost predicate Valid() reads this { "" !in mediaFiles }

    method ReassignFileAnnotation(prev: string, next: string)
      requires prev != next && prev != "" && next != ""
      modifies this`annotations, this`mediaFiles
      ensures annotations == Reassigned(old(annotations), MediaFileItem, prev, next)
      ensures mediaFiles ==
              if next !in old(mediaFiles) then old(mediaFiles)
              else Rated(old(mediaFiles), next, average(Ratings(annotations, MediaFileItem, next)))
    {
      annotations := UpdateOrIgnore(annotations, MediaFileItem, prev, next);
      if next in mediaFiles {
        mediaFiles := Rated(mediaFiles, next, average(Ratings(annotations, MediaFileItem, next)));
      }
    }

    method ReassignAlbumAnnotation(prev: string, next: string)
      modifies this`annotations, this`albums
      ensures annotations ==
              if prev == next || prev == "" || next == "" then old(annotations)
              else Reassigned(old(annotations), AlbumItem, prev, next)
      ensures albums ==
              if prev == next || prev == "" || next == "" || next !in old(albums) then old(albums)
              else old(albums)[next := old(albums)[next].(
                averageRating := average(Ratings(annotations, AlbumItem, next)))]
    {
      if prev == next || prev == "" || next == "" { return; }
      annotations := UpdateOrIgnore(annotations, AlbumItem, prev, next);
      if next in albums {
        albums := albums[next := albums[next].(averageRating := average(Ratings(annotations, AlbumItem, next)))];
      }
    }

    method ReassignReferences(prev: string, next: string)
      requires prev != next && prev != "" && next != "" && next in mediaFiles
      modifies this`annotations, this`mediaFiles, this`bookmarks, this`playlists, this`scrobbles, this`buffer
      ensures annotations == Reassigned(old(annotations), MediaFileItem, prev, next)
      ensures mediaFiles ==
              Rated(old(mediaFiles), next, average(Ratings(annotations, MediaFileItem, next)))
      ensures bookmarks == Reassigned(old(bookmarks), MediaFileItem, prev, next)
      ensures playlists == ListsRenamed(old(playlists), prev, next)
      ensures scrobbles == RenameAll(old(scrobbles), prev, next)
      ensures buffer == RenameBuffer(old(buffer), prev, next)
    {
      ReassignFileAnnotation(prev, next);
      bookmarks := UpdateOrIgnore(bookmarks, MediaFileItem, prev, next);
      playlists := ListsRenamed(playlists, prev, next);
      scrobbles := RenameAll(scrobbles, prev, next);
      buffer := RenameBuffer(buffer, prev, next);
    }

    /** Removes the file and, by the foreign key, its buffered plays. */
    method Delete(id: string)
      modifies this`mediaFiles, this`buffer
      ensures mediaFiles == old(mediaFiles) - {id}
      ensures buffer == set b | b in old(buffer) && b.mediaFile != id
    {
      mediaFiles := mediaFiles - {id};
      buffer := set b | b in buffer && b.mediaFile != id;
    }

    /** Everything inside the transaction up to the album. */
    method MoveFile(missing: string, target: string)
      requires Valid() && missing in mediaFiles && target in mediaFiles && missing != target
      modifies this`annotations, this`mediaFiles, this`bookmarks, this`playlists, this`scrobbles, this`buffer
      ensures annotations == Reassigned(old(annotations), MediaFileItem, target, missing)
      ensures mediaFiles ==
                FilesRemapped(old(mediaFiles), missing, target, average(Ratings(annotations, MediaFileItem, missing)))
      ensures bookmarks == Reassigned(old(bookmarks), MediaFileItem, target, missing)
      ensures playlists == ListsRenamed(old(playlists), target, missing)
      ensures scrobbles == RenameAll(old(scrobbles), target, missing)
      ensures buffer == set b | b in RenameBuffer(old(buffer), target, missing) && b.mediaFile != target
    {
      mediaFiles := mediaFiles[missing := mediaFiles[target].(createdAt := mediaFiles[missing].createdAt)];
      ReassignReferences(target, missing);
      Delete(target);
    }

    /** The old album's annotations and age go to the new one when no track is left on it. */
    method FollowAlbum(prev: string, next: string) returns (follow: Follow)
      modifies this`annotations, this`albums
      ensures follow ==
              if LeftEmpty(mediaFiles, prev, next) then Follow(prev, next) else Stay
      ensures annotations ==
              if follow.Follow? then Reassigned(old(annotations), AlbumItem, prev, next) else old(annotations)
      ensures albums ==
              if prev != next && !HasTrack(mediaFiles, prev)
              then AlbumsFollowed(old(albums), prev, next, average(Ratings(annotations, AlbumItem, next)))
              else old(albums)
    {
      follow := Stay;
      if prev != next && !HasTrack(mediaFiles, prev) {
        ReassignAlbumAnnotation(prev, next);
        if prev in albums && next in albums {
          albums := albums[next := albums[next].(createdAt := albums[prev].createdAt)];
        }
        if prev != "" && next != "" { follow := Follow(prev, next); }
      }
    }

    /** The item the row is on exists. */
    ghost predicate HasItem(k: Key) reads this {
      match k.itemType
      case AlbumItem => k.item in albums
      case ArtistItem => k.item in artists
      case MediaFileItem => k.item in mediaFiles
      case PlaylistItem => k.item in playlists
    }

    /** What exists now. */
    function LiveNow(): Live reads this { Live(mediaFiles.Keys, albums.Keys, artists, playlists.Keys) }

    /** Which albums, artists, annotations, bookmarks and tracks are left after so many stages. */
    twostate predicate Collected(stage: nat) reads this {
      && albums == (if stage < 1 then old(albums) else AlbumsWithTracks(old(albums), mediaFiles))
      && artists == (if stage < 2 then old(artists) else CreditedArtists(old(artists), albums))
      && annotations == AnnotationsKept(old(annotations), LiveNow(), stage)
      && bookmarks == (if stage < 7 then old(bookmarks) else Cleaned(old(bookmarks), MediaFileItem, mediaFiles.Keys))
      && playlists == (if stage < 8 then old(playlists) else ListsExisting(old(playlists), mediaFiles.Keys))
    }

    /** Stages 1 and 2; failsAt is the number of stages before the one that fails. */
    method PurgeEmpty(failsAt: nat) returns (stage: nat)
      modifies this`albums, this`artists
      ensures stage == if failsAt < 2 then failsAt else 2
      ensures albums == if stage < 1 then old(albums) else AlbumsWithTracks(old(albums), mediaFiles)
      ensures artists == if stage < 2 then old(artists) else CreditedArtists(old(artists), albums)
    {
      if failsAt == 0 { return 0; }
      albums := AlbumsWithTracks(albums, mediaFiles);
      if failsAt == 1 { return 1; }
      artists := CreditedArtists(artists, albums);
      stage := 2;
    }

    /** Stages 3 to 6. */
    method CleanAnnotations(failsAt: nat) returns (stage: nat)
      requires failsAt >= 2
      modifies this`annotations
      ensures stage == if failsAt < 6 then failsAt else 6
      ensures annotations == AnnotationsKept(old(annotations), LiveNow(), stage)
    {
      stage := 2;
      var live := LiveNow();
      KeptBeforeThree(annotations, live);
      while stage < 6
        invariant 2 <= stage <= 6 && stage <= failsAt && annotations == AnnotationsKept(old(annotations), live, stage)
      {
        if failsAt == stage { return; }
        KeptNext(old(annotations), live, stage);
        annotations := Cleaned(annotations, StageType(stage), OfType(live, StageType(stage)));
        stage := stage + 1;
      }
    }

    /** Stages 7 and 8. */
    method CleanReferences(failsAt: nat) returns (stage: nat)
      requires failsAt >= 6
      modifies this`bookmarks, this`playlists
      ensures stage == (if failsAt < 8 then failsAt else 8) && playlists.Keys == old(playlists).Keys
      ensures bookmarks == if stage < 7 then old(bookmarks) else Cleaned(old(bookmarks), MediaFileItem, mediaFiles.Keys)
      ensures playlists == if stage < 8 then old(playlists) else ListsExisting(old(playlists), mediaFiles.Keys)
    {
      if failsAt == 6 { return 6; }
      bookmarks := Cleaned(bookmarks, MediaFileItem, mediaFiles.Keys);
      if failsAt == 7 { return 7; }
      playlists := ListsExisting(playlists, mediaFiles.Keys);
      stage := 8;
    }

    /** The collections that concern files, albums, artists and playlists, in their order; the first that
        fails ends it, and what the ones before it did stays. */
    method GC(failsAt: nat) returns (stage: nat)
      modifies this`albums, this`artists, this`annotations, this`bookmarks, this`playlists
      ensures stage == (if failsAt < 8 then failsAt else 8) && Collected(stage)
      // once all is collected, exactly what still has something behind it is left
      ensures stage == ALL_STAGES ==>
                && (forall a :: a in albums <==>
                      a in old(albums) && exists f :: f in mediaFiles && mediaFiles[f].albumId == a)
                && (forall x :: x in artists <==>
                      x in old(artists) && exists a :: a in albums && x in albums[a].artists)
                && (forall k :: k in annotations <==> k in old(annotations) && HasItem(k))
                && (forall k :: k in annotations ==> annotations[k] == old(annotations)[k])
    {
      stage := PurgeEmpty(failsAt);
      KeptBeforeThree(annotations, LiveNow());
      if stage < 2 { return; }
      stage := CleanAnnotations(failsAt);
      if stage < 6 { return; }
      stage := CleanReferences(failsAt);
    }

    /** The file's row, plays and ratings once the remap is committed. */
    twostate predicate FileRemapped(missing: string, target: string) reads this {
      && missing in old(mediaFiles) && target in old(mediaFiles)
      && mediaFiles == FilesRemapped(old(mediaFiles), missing, target,
                                     average(Ratings(annotations, MediaFileItem, missing)))
      && scrobbles == RenameAll(old(scrobbles), target, missing)
      && buffer == set b | b in RenameBuffer(old(buffer), target, missing) && b.mediaFile != target
    }

    /** The references, as far collected as the stage says. */
    twostate predicate ReferencesRemapped(missing: string, target: string, follow: Follow, stage: nat) reads this {
      var bookmarks', lists := Reassigned(old(bookmarks), MediaFileItem, target, missing),
                               ListsRenamed(old(playlists), target, missing);
      && annotations == AnnotationsKept(AnnotationsMoved(old(annotations), missing, target, follow), LiveNow(), stage)
      && bookmarks == (if stage < 7 then bookmarks' else Cleaned(bookmarks', MediaFileItem, mediaFiles.Keys))
      && playlists == (if stage < 8 then lists else ListsExisting(lists, mediaFiles.Keys))
    }

    /** The albums and artists, as far collected as the stage says: prev's annotations and age go to next when
        no track is left on prev. */
    twostate predicate AlbumsRemapped(missing: string, target: string, prev: string, next: string, follow: Follow,
                                      stage: nat)
      reads this
    {
      var ratings := Ratings(AnnotationsMoved(old(annotations), missing, target, follow), AlbumItem, next);
      var followed := if prev != next && !HasTrack(mediaFiles, prev)
                      then AlbumsFollowed(old(albums), prev, next, average(ratings)) else old(albums);
      && follow == (if LeftEmpty(mediaFiles, prev, next) then Follow(prev, next) else Stay)
      && albums == (if stage < 1 then followed else AlbumsWithTracks(followed, mediaFiles))
      && artists == (if stage < 2 then old(artists) else CreditedArtists(old(artists), albums))
    }

    /** The committed transaction and the collection after it. */
    method Remap(missing: string, target: string, failsAt: nat) returns (stage: nat, follow: Follow)
      requires Valid() && missing != target && missing in mediaFiles && target in mediaFiles
      modifies this
      ensures stage == if failsAt < 8 then failsAt else 8
      ensures FileRemapped(missing, target) && ReferencesRemapped(missing, target, follow, stage)
      ensures AlbumsRemapped(missing, target, old(mediaFiles)[missing].albumId, old(mediaFiles)[target].albumId, follow,
                             stage)
    {
      var oldAlbum, newAlbum := mediaFiles[missing].albumId, mediaFiles[target].albumId;
      MoveFile(missing, target);
      follow := FollowAlbum(oldAlbum, newAlbum);
      stage := GC(failsAt);
      assert mediaFiles.Keys == old(mediaFiles).Keys - {target};
      RatingsKept(old(annotations), LiveNow(), missing, target, follow, stage);
    }

    /** Nothing changes unless the transaction commits.  Once it has, every reference has moved, the
        survivor's average is up to date, and the collection has gone as far as the stage says.  failsAt is
        the number of stages before the one that fails. */
    method RemapMissingFile(missing: string, target: string, rollsBack: bool, failsAt: nat)
      returns (r: Outcome, ghost follow: Follow, ghost stage: nat)
      requires Valid()
      modifies this
      ensures missing == target ==> r == SameFile
      ensures missing != target && missing !in old(mediaFiles) ==> r == NotFound
      ensures missing != target && missing in old(mediaFiles) && !old(mediaFiles)[missing].missing ==> r == NotMissing
      ensures (missing != target && missing in old(mediaFiles) && old(mediaFiles)[missing].missing) ==>
                && (target !in old(mediaFiles) ==> r == NotFound)
                && (target in old(mediaFiles) && old(mediaFiles)[target].missing ==> r == TargetMissing)
      // a remap that is not refused is done, unless a statement fails
      ensures (missing != target && missing in old(mediaFiles) && target in old(mediaFiles)
               && old(mediaFiles)[missing].missing && !old(mediaFiles)[target].missing) ==>
                r == if rollsBack then TransactionFailed else if failsAt < 8 then CollectionFailed else Done
      ensures r != Done && r != CollectionFailed ==> unchanged(this)
      ensures r == Done || r == CollectionFailed ==>
                && missing in old(mediaFiles) && target in old(mediaFiles)
                && stage == (if failsAt < 8 then failsAt else 8)
                && FileRemapped(missing, target) && ReferencesRemapped(missing, target, follow, stage)
                && AlbumsRemapped(missing, target, old(mediaFiles)[missing].albumId, old(mediaFiles)[target].albumId,
                                  follow, stage)
    {
      follow, stage := Stay, 0;
      if missing == target { return SameFile, Stay, 0; }
      if missing !in mediaFiles { return NotFound, Stay, 0; }
      if !mediaFiles[missing].missing { return NotMissing, Stay, 0; }
      if target !in mediaFiles { return NotFound, Stay, 0; }
      if mediaFiles[target].missing { return TargetMissing, Stay, 0; }
      if rollsBack { return TransactionFailed, Stay, 0; }    // a failed statement rolls the transaction back
      var stages, followed := Remap(missing, target, failsAt);
      follow, stage := followed, stages;
      r := if stages == ALL_STAGES then Done else CollectionFailed;
    }
  }
}
