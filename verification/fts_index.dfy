/**
 * The full-text search index is contentless: triggers on the base tables keep it, by feeding it the
 * texts to add and, on a delete, the same texts again to take off.
 */
module FtsIndex {
  /** A nullable text column. */
  datatype Text = Null | Str(value: string)

  /** The columns of the three base tables that the index reads; other holds the rest of the row. */
  datatype Row =
    | MediaFile(title: Text, album: Text, artist: Text, albumArtist: Text,
                sortTitle: Text, sortAlbumName: Text, sortArtistName: Text, sortAlbumArtistName: Text,
                discSubtitle: Text, searchParticipants: Text, searchNormalized: Text, other: string)
    | Album(name: Text, sortAlbumName: Text, albumArtist: Text, searchParticipants: Text, discs: Text,
            catalogNum: Text, tags: Text, searchNormalized: Text, other: string)
    | Artist(name: Text, sortArtistName: Text, searchNormalized: Text, other: string)

  function Coalesce(t: Text): Text { if t == Null then Str("") else t }

  /** How texts are read: the tokens of a text, and the album versions that the tags of an album hold. */
  datatype Reader = Reader(tokens: string -> seq<string>, albumVersion: Text -> Text)

  /** The columns of the three index tables. */
  datatype Column =
    | InTitle | InAlbum | InArtist | InAlbumArtist | InSortTitle | InSortAlbumName | InSortArtistName
    | InSortAlbumArtistName | InDiscSubtitle | InSearchParticipants | InSearchNormalized
    | InName | InDiscs | InCatalogNum | InAlbumVersion

  /** What the index is given for a row: a text for each of its columns. */
  type Document = map<Column, Text>

  // The five statements that give or take a row's document, one projection each.

  /** The bulk inserts. */
  function BulkDocument(reader: Reader, row: Row): Document {
    match row
    case MediaFile(_, _, _, _, _, _, _, _, _, _, _, _) =>
      map[InTitle := row.title, InAlbum := row.album, InArtist := row.artist, InAlbumArtist := row.albumArtist,
          InSortTitle := row.sortTitle, InSortAlbumName := row.sortAlbumName,
          InSortArtistName := row.sortArtistName, InSortAlbumArtistName := row.sortAlbumArtistName,
          InDiscSubtitle := Coalesce(row.discSubtitle), InSearchParticipants := Coalesce(row.searchParticipants),
          InSearchNormalized := Coalesce(row.searchNormalized)]
    case Album(_, _, _, _, _, _, _, _, _) =>
      map[InName := row.name, InSortAlbumName := Coalesce(row.sortAlbumName),
          InAlbumArtist := Coalesce(row.albumArtist),
          InSearchParticipants := Coalesce(row.searchParticipants), InDiscs := Coalesce(row.discs),
          InCatalogNum := Coalesce(row.catalogNum), InAlbumVersion := Coalesce(reader.albumVersion(row.tags)),
          InSearchNormalized := Coalesce(row.searchNormalized)]
    case Artist(_, _, _, _) =>
      map[InName := row.name, InSortArtistName := Coalesce(row.sortArtistName),
          InSearchNormalized := Coalesce(row.searchNormalized)]
  }

  /** The insert triggers, of the new row. */
  function InsertNew(reader: Reader, row: Row): Document {
    match row
    case MediaFile(_, _, _, _, _, _, _, _, _, _, _, _) =>
      map[InTitle := row.title, InAlbum := row.album, InArtist := row.artist, InAlbumArtist := row.albumArtist,
          InSortTitle := row.sortTitle, InSortAlbumName := row.sortAlbumName,
          InSortArtistName := row.sortArtistName, InSortAlbumArtistName := row.sortAlbumArtistName,
          InDiscSubtitle := Coalesce(row.discSubtitle), InSearchParticipants := Coalesce(row.searchParticipants),
          InSearchNormalized := Coalesce(row.searchNormalized)]
    case Album(_, _, _, _, _, _, _, _, _) =>
      map[InName := row.name, InSortAlbumName := Coalesce(row.sortAlbumName),
          InAlbumArtist := Coalesce(row.albumArtist),
          InSearchParticipants := Coalesce(row.searchParticipants), InDiscs := Coalesce(row.discs),
          InCatalogNum := Coalesce(row.catalogNum), InAlbumVersion := Coalesce(reader.albumVersion(row.tags)),
          InSearchNormalized := Coalesce(row.searchNormalized)]
    case Artist(_, _, _, _) =>
      map[InName := row.name, InSortArtistName := Coalesce(row.sortArtistName),
          InSearchNormalized := Coalesce(row.searchNormalized)]
  }

  /** The delete triggers, of the old row. */
  function DeleteOld(reader: Reader, row: Row): Document {
    match row
    case MediaFile(_, _, _, _, _, _, _, _, _, _, _, _) =>
      map[InTitle := row.title, InAlbum := row.album, InArtist := row.artist, InAlbumArtist := row.albumArtist,
          InSortTitle := row.sortTitle, InSortAlbumName := row.sortAlbumName,
          InSortArtistName := row.sortArtistName, InSortAlbumArtistName := row.sortAlbumArtistName,
          InDiscSubtitle := Coalesce(row.discSubtitle), InSearchParticipants := Coalesce(row.searchParticipants),
          InSearchNormalized := Coalesce(row.searchNormalized)]
    case Album(_, _, _, _, _, _, _, _, _) =>
      map[InName := row.name, InSortAlbumName := Coalesce(row.sortAlbumName),
          InAlbumArtist := Coalesce(row.albumArtist),
          InSearchParticipants := Coalesce(row.searchParticipants), InDiscs := Coalesce(row.discs),
          InCatalogNum := Coalesce(row.catalogNum), InAlbumVersion := Coalesce(reader.albumVersion(row.tags)),
          InSearchNormalized := Coalesce(row.searchNormalized)]
    case Artist(_, _, _, _) =>
      map[InName := row.name, InSortArtistName := Coalesce(row.sortArtistName),
          InSearchNormalized := Coalesce(row.searchNormalized)]
  }

  /** The first half of the update triggers: the 'delete' command, of the old row. */
  function UpdateOld(reader: Reader, row: Row): Document {
    match row
    case MediaFile(_, _, _, _, _, _, _, _, _, _, _, _) =>
      map[InTitle := row.title, InAlbum := row.album, InArtist := row.artist, InAlbumArtist := row.albumArtist,
          InSortTitle := row.sortTitle, InSortAlbumName := row.sortAlbumName,
          InSortArtistName := row.sortArtistName, InSortAlbumArtistName := row.sortAlbumArtistName,
          InDiscSubtitle := Coalesce(row.discSubtitle), InSearchParticipants := Coalesce(row.searchParticipants),
          InSearchNormalized := Coalesce(row.searchNormalized)]
    case Album(_, _, _, _, _, _, _, _, _) =>
      map[InName := row.name, InSortAlbumName := Coalesce(row.sortAlbumName),
          InAlbumArtist := Coalesce(row.albumArtist),
          InSearchParticipants := Coalesce(row.searchParticipants), InDiscs := Coalesce(row.discs),
          InCatalogNum := Coalesce(row.catalogNum), InAlbumVersion := Coalesce(reader.albumVersion(row.tags)),
          InSearchNormalized := Coalesce(row.searchNormalized)]
    case Artist(_, _, _, _) =>
      map[InName := row.name, InSortArtistName := Coalesce(row.sortArtistName),
          InSearchNormalized := Coalesce(row.searchNormalized)]
  }

  /** The second half of the update triggers, of the new row. */
  function UpdateNew(reader: Reader, row: Row): Document {
    match row
    case MediaFile(_, _, _, _, _, _, _, _, _, _, _, _) =>
      map[InTitle := row.title, InAlbum := row.album, InArtist := row.artist, InAlbumArtist := row.albumArtist,
          InSortTitle := row.sortTitle, InSortAlbumName := row.sortAlbumName,
          InSortArtistName := row.sortArtistName, InSortAlbumArtistName := row.sortAlbumArtistName,
          InDiscSubtitle := Coalesce(row.discSubtitle), InSearchParticipants := Coalesce(row.searchParticipants),
          InSearchNormalized := Coalesce(row.searchNormalized)]
    case Album(_, _, _, _, _, _, _, _, _) =>
      map[InName := row.name, InSortAlbumName := Coalesce(row.sortAlbumName),
          InAlbumArtist := Coalesce(row.albumArtist),
          InSearchParticipants := Coalesce(row.searchParticipants), InDiscs := Coalesce(row.discs),
          InCatalogNum := Coalesce(row.catalogNum), InAlbumVersion := Coalesce(reader.albumVersion(row.tags)),
          InSearchNormalized := Coalesce(row.searchNormalized)]
    case Artist(_, _, _, _) =>
      map[InName := row.name, InSortArtistName := Coalesce(row.sortArtistName),
          InSearchNormalized := Coalesce(row.searchNormalized)]
  }

  /** The five projections agree, for every row of every table. */
  lemma ProjectionsAgree(reader: Reader, row: Row)
    ensures InsertNew(reader, row) == BulkDocument(reader, row)
    ensures DeleteOld(reader, row) == BulkDocument(reader, row)
    ensures UpdateOld(reader, row) == BulkDocument(reader, row)
    ensures UpdateNew(reader, row) == BulkDocument(reader, row)
  {
  }

  /** The guard of the update triggers: a null-safe comparison of the columns they list. */
  predicate IndexedColumnsDiffer(a: Row, b: Row) {
    match (a, b)
    case (MediaFile(_, _, _, _, _, _, _, _, _, _, _, _), MediaFile(_, _, _, _, _, _, _, _, _, _, _, _)) =>
      || a.title != b.title || a.album != b.album || a.artist != b.artist || a.albumArtist != b.albumArtist
      || a.sortTitle != b.sortTitle || a.sortAlbumName != b.sortAlbumName || a.sortArtistName != b.sortArtistName
      || a.sortAlbumArtistName != b.sortAlbumArtistName || a.discSubtitle != b.discSubtitle
      || a.searchParticipants != b.searchParticipants || a.searchNormalized != b.searchNormalized
    case (Album(_, _, _, _, _, _, _, _, _), Album(_, _, _, _, _, _, _, _, _)) =>
      || a.name != b.name || a.sortAlbumName != b.sortAlbumName || a.albumArtist != b.albumArtist
      || a.searchParticipants != b.searchParticipants || a.discs != b.discs || a.catalogNum != b.catalogNum
      || a.tags != b.tags || a.searchNormalized != b.searchNormalized
    case (Artist(_, _, _, _), Artist(_, _, _, _)) =>
      a.name != b.name || a.sortArtistName != b.sortArtistName || a.searchNormalized != b.searchNormalized
    case _ => true
  }

  /** A row the guard skips has the same document before and after. */
  lemma GuardIsSound(reader: Reader, a: Row, b: Row)
    requires !IndexedColumnsDiffer(a, b)
    ensures BulkDocument(reader, a) == BulkDocument(reader, b)
  {
  }

  // ---------------------------------------------------------------------------------------------
  // Postings

  /** One token of one column of one row. */
  datatype Posting = Posting(rowid: int, column: Column, position: nat, token: string)

  function Tokens(reader: Reader, t: Text): seq<string> { if t == Null then [] else reader.tokens(t.value) }

  function ColumnPostings(rowid: int, column: Column, tokens: seq<string>): set<Posting> {
    set p | 0 <= p < |tokens| :: Posting(rowid, column, p, tokens[p])
  }

  /** What a document adds to the index, or takes off it. */
  function Postings(reader: Reader, rowid: int, document: Document): (ps: set<Posting>)
    ensures forall x :: x in ps ==> x.rowid == rowid
  {
    set c, x | c in document && x in ColumnPostings(rowid, c, Tokens(reader, document[c])) :: x
  }

  /** The postings a bulk insert gives a row. */
  function RowPostings(reader: Reader, rowid: int, row: Row): (ps: set<Posting>)
    ensures forall x :: x in ps ==> x.rowid == rowid
  {
    Postings(reader, rowid, BulkDocument(reader, row))
  }

  function Entries(reader: Reader, rows: map<int, Row>): set<Posting> {
    set r, x | r in rows && x in RowPostings(reader, r, rows[r]) :: x
  }

  /** The index holds each posting of each row once, and nothing else. */
  ghost predicate Faithful(reader: Reader, rows: map<int, Row>, index: multiset<Posting>) {
    index == multiset(Entries(reader, rows))
  }

  /** The index holds these tokens, in their order, under a column of a row, and no others. */
  ghost predicate ColumnIs(index: multiset<Posting>, rowid: int, column: Column, tokens: seq<string>) {
    forall p: nat, token ::
      Posting(rowid, column, p, token) in index <==> p < |tokens| && token == tokens[p]
  }

  /** What can be found of a row, column by column: a file's eight plain columns and its three coalesced
      ones; an album's name and its coalesced columns, the versions in its tags among them; an artist's
      name and the other two.  A plain column gives nothing when it is NULL, a coalesced one what the empty
      text gives. */
  ghost function Findable(reader: Reader, row: Row, column: Column): seq<string> {
    match (row, column)
    case (MediaFile(_, _, _, _, _, _, _, _, _, _, _, _), InTitle) => Plain(reader, row.title)
    case (MediaFile(_, _, _, _, _, _, _, _, _, _, _, _), InAlbum) => Plain(reader, row.album)
    case (MediaFile(_, _, _, _, _, _, _, _, _, _, _, _), InArtist) => Plain(reader, row.artist)
    case (MediaFile(_, _, _, _, _, _, _, _, _, _, _, _), InAlbumArtist) => Plain(reader, row.albumArtist)
    case (MediaFile(_, _, _, _, _, _, _, _, _, _, _, _), InSortTitle) => Plain(reader, row.sortTitle)
    case (MediaFile(_, _, _, _, _, _, _, _, _, _, _, _), InSortAlbumName) => Plain(reader, row.sortAlbumName)
    case (MediaFile(_, _, _, _, _, _, _, _, _, _, _, _), InSortArtistName) => Plain(reader, row.sortArtistName)
    case (MediaFile(_, _, _, _, _, _, _, _, _, _, _, _), InSortAlbumArtistName) =>
      Plain(reader, row.sortAlbumArtistName)
    case (MediaFile(_, _, _, _, _, _, _, _, _, _, _, _), InDiscSubtitle) => OrEmpty(reader, row.discSubtitle)
    case (MediaFile(_, _, _, _, _, _, _, _, _, _, _, _), InSearchParticipants) =>
      OrEmpty(reader, row.searchParticipants)
    case (MediaFile(_, _, _, _, _, _, _, _, _, _, _, _), InSearchNormalized) => OrEmpty(reader, row.searchNormalized)
    case (Album(_, _, _, _, _, _, _, _, _), InName) => Plain(reader, row.name)
    case (Album(_, _, _, _, _, _, _, _, _), InSortAlbumName) => OrEmpty(reader, row.sortAlbumName)
    case (Album(_, _, _, _, _, _, _, _, _), InAlbumArtist) => OrEmpty(reader, row.albumArtist)
    case (Album(_, _, _, _, _, _, _, _, _), InSearchParticipants) => OrEmpty(reader, row.searchParticipants)
    case (Album(_, _, _, _, _, _, _, _, _), InDiscs) => OrEmpty(reader, row.discs)
    case (Album(_, _, _, _, _, _, _, _, _), InCatalogNum) => OrEmpty(reader, row.catalogNum)
    case (Album(_, _, _, _, _, _, _, _, _), InAlbumVersion) => OrEmpty(reader, reader.albumVersion(row.tags))
    case (Album(_, _, _, _, _, _, _, _, _), InSearchNormalized) => OrEmpty(reader, row.searchNormalized)
    case (Artist(_, _, _, _), InName) => Plain(reader, row.name)
    case (Artist(_, _, _, _), InSortArtistName) => OrEmpty(reader, row.sortArtistName)
    case (Artist(_, _, _, _), InSearchNormalized) => OrEmpty(reader, row.searchNormalized)
    case _ => []
  }

  ghost function Plain(reader: Reader, t: Text): seq<string> { if t.Str? then reader.tokens(t.value) else [] }

  ghost function OrEmpty(reader: Reader, t: Text): seq<string> { reader.tokens(if t.Str? then t.value else "") }

  lemma DocumentIsFindable(reader: Reader, row: Row, column: Column)
    ensures var document := BulkDocument(reader, row);
            Findable(reader, row, column) == if column in document then Tokens(reader, document[column]) else []
  {
  }

  lemma IndexedPosting(reader: Reader, rows: map<int, Row>, index: multiset<Posting>, x: Posting)
    requires Faithful(reader, rows, index)
    ensures x in index <==>
            x.rowid in rows && x in Postings(reader, x.rowid, BulkDocument(reader, rows[x.rowid]))
  {
    if x in index {
      var r :| r in rows && x in RowPostings(reader, r, rows[r]);
    }
    assert x.rowid in rows && x in RowPostings(reader, x.rowid, rows[x.rowid]) ==> x in Entries(reader, rows);
  }

  lemma IndexedColumn(reader: Reader, rows: map<int, Row>, index: multiset<Posting>, rowid: int, column: Column)
    requires Faithful(reader, rows, index) && rowid in rows
    ensures var document := BulkDocument(reader, rows[rowid]);
            ColumnIs(index, rowid, column, if column in document then Tokens(reader, document[column]) else [])
  {
    var document := BulkDocument(reader, rows[rowid]);
    var tokens := if column in document then Tokens(reader, document[column]) else [];
    forall p: nat, token
      ensures Posting(rowid, column, p, token) in index <==> p < |tokens| && token == tokens[p]
    {
      var x := Posting(rowid, column, p, token);
      IndexedPosting(reader, rows, index, x);
      if p < |tokens| && token == tokens[p] {
        assert x in ColumnPostings(rowid, column, Tokens(reader, document[column]));
      }
    }
  }

  /** A faithful index finds of every row exactly the tokens of its own texts, under their columns and at
      their places. */
  lemma RowIsFound(reader: Reader, rows: map<int, Row>, index: multiset<Posting>, rowid: int, column: Column)
    requires Faithful(reader, rows, index) && rowid in rows
    ensures ColumnIs(index, rowid, column, Findable(reader, rows[rowid], column))
  {
    IndexedColumn(reader, rows, index, rowid, column);
    DocumentIsFindable(reader, rows[rowid], column);
  }

  /** The document is what the index holds for the row, each posting once. */
  ghost predicate SuppliesIndexed(reader: Reader, index: multiset<Posting>, rowid: int, document: Document) {
    && multiset(Postings(reader, rowid, document)) <= index
    && forall x :: x in index && x.rowid == rowid ==> x in Postings(reader, rowid, document) && index[x] == 1
  }

  lemma EntriesWith(reader: Reader, rows: map<int, Row>, rowid: int, row: Row)
    requires rowid !in rows
    ensures Entries(reader, rows[rowid := row]) == Entries(reader, rows) + RowPostings(reader, rowid, row)
    ensures Entries(reader, rows) !! RowPostings(reader, rowid, row)
  {
    var more := rows[rowid := row];
    forall x | x in Entries(reader, rows) ensures x in Entries(reader, more) && x !in RowPostings(reader, rowid, row) {
      var r :| r in rows && x in RowPostings(reader, r, rows[r]);
      assert more[r] == rows[r];
    }
    forall x | x in RowPostings(reader, rowid, row) ensures x in Entries(reader, more) { assert more[rowid] == row; }
  }

  lemma EntriesWithout(reader: Reader, rows: map<int, Row>, rowid: int)
    requires rowid in rows
    ensures RowPostings(reader, rowid, rows[rowid]) <= Entries(reader, rows)
    ensures Entries(reader, rows - {rowid}) == Entries(reader, rows) - RowPostings(reader, rowid, rows[rowid])
  {
    var less := rows - {rowid};
    EntriesWith(reader, less, rowid, rows[rowid]);
    assert less[rowid := rows[rowid]] == rows;
  }

  lemma MultisetOfUnion(a: set<Posting>, b: set<Posting>)
    requires a !! b
    ensures multiset(a + b) == multiset(a) + multiset(b)
  {
  }

  // ---------------------------------------------------------------------------------------------
  // The base table, its triggers and its index

  datatype Change = Insert(rowid: int, row: Row) | Update(rowid: int, row: Row) | Delete(rowid: int)

  /** What a change leaves of the base table; one that names no row, or a taken rowid, does nothing. */
  function Changed(rows: map<int, Row>, c: Change): map<int, Row> {
    match c
    case Insert(rowid, row) => if rowid in rows then rows else rows[rowid := row]
    case Update(rowid, row) => if rowid in rows then rows[rowid := row] else rows
    case Delete(rowid) => rows - {rowid}
  }

  function ChangedAll(rows: map<int, Row>, changes: seq<Change>): map<int, Row> {
    if changes == [] then rows else Changed(ChangedAll(rows, changes[..|changes| - 1]), changes[|changes| - 1])
  }

  class IndexedTable {
    const reader: Reader
    var rows: map<int, Row>
    var index: multiset<Posting>

    constructor (reader: Reader)
      ensures this.reader == reader && rows == map[] && index == multiset{} && Faithful(reader, rows, index)
    {
      this.reader, rows, index := reader, map[], multiset{};
    }

    /** Feeds the index a document. */
    method IndexInsert(rowid: int, document: Document)
      modifies this`index
      ensures index == old(index) + multiset(Postings(reader, rowid, document))
    {
      index := index + multiset(Postings(reader, rowid, document));
    }

    /** The 'delete' command: it must be given exactly what was indexed for the row. */
    method IndexDelete(rowid: int, document: Document)
      requires SuppliesIndexed(reader, index, rowid, document)
      modifies this`index
      ensures index == old(index) - multiset(Postings(reader, rowid, document))
      ensures forall x :: x in index ==> x.rowid != rowid
    {
      index := index - multiset(Postings(reader, rowid, document));
    }

    method InsertRow(rowid: int, row: Row)
      requires rowid !in rows && Faithful(reader, rows, index)
      modifies this
      ensures rows == old(rows)[rowid := row] && Faithful(reader, rows, index)
    {
      ProjectionsAgree(reader, row);
      EntriesWith(reader, rows, rowid, row);
      MultisetOfUnion(Entries(reader, rows), RowPostings(reader, rowid, row));
      rows := rows[rowid := row];
      IndexInsert(rowid, InsertNew(reader, row));
    }

    method DeleteRow(rowid: int)
      requires rowid in rows && Faithful(reader, rows, index)
      modifies this
      ensures rows == old(rows) - {rowid} && Faithful(reader, rows, index)
    {
      var oldRow := rows[rowid];
      ProjectionsAgree(reader, oldRow);
      DeleteFeedsWhatWasIndexed(reader, rows, index, rowid);
      rows := rows - {rowid};
      IndexDelete(rowid, DeleteOld(reader, oldRow));
    }

    method UpdateRow(rowid: int, newRow: Row)
      requires rowid in rows && Faithful(reader, rows, index)
      modifies this
      ensures rows == old(rows)[rowid := newRow] && Faithful(reader, rows, index)
    {
      var oldRow := rows[rowid];
      ghost var less := rows - {rowid};
      assert less[rowid := newRow] == rows[rowid := newRow] && less[rowid := oldRow] == rows;
      EntriesWith(reader, less, rowid, newRow);
      if IndexedColumnsDiffer(oldRow, newRow) {
        ProjectionsAgree(reader, oldRow);
        ProjectionsAgree(reader, newRow);
        DeleteFeedsWhatWasIndexed(reader, rows, index, rowid);
        MultisetOfUnion(Entries(reader, less), RowPostings(reader, rowid, newRow));
        rows := rows[rowid := newRow];
        IndexDelete(rowid, UpdateOld(reader, oldRow));
        IndexInsert(rowid, UpdateNew(reader, newRow));
      } else {
        GuardIsSound(reader, oldRow, newRow);
        EntriesWith(reader, less, rowid, oldRow);
        rows := rows[rowid := newRow];
      }
    }

    method Apply(c: Change)
      requires Faithful(reader, rows, index)
      modifies this
      ensures rows == Changed(old(rows), c) && Faithful(reader, rows, index)
    {
      match c
      case Insert(rowid, row) => if rowid !in rows { InsertRow(rowid, row); }
      case Update(rowid, row) => if rowid in rows { UpdateRow(rowid, row); }
      case Delete(rowid) => if rowid in rows { DeleteRow(rowid); } else { assert rows - {rowid} == rows; }
    }

    /** After every run of changes the index is the one that would be built from scratch. */
    method Run(changes: seq<Change>)
      requires Faithful(reader, rows, index)
      modifies this
      ensures rows == ChangedAll(old(rows), changes) && Faithful(reader, rows, index)
    {
      for i := 0 to |changes|
        invariant rows == ChangedAll(old(rows), changes[..i]) && Faithful(reader, rows, index)
      {
        assert changes[..i + 1][..i] == changes[..i];
        Apply(changes[i]);
      }
      assert changes[..|changes|] == changes;
    }

    /** The bulk insert: every row, in any order, into an empty index. */
    method BulkInsert()
      requires index == multiset{}
      modifies this`index
      ensures Faithful(reader, rows, index)
    {
      var todo := rows.Keys;
      assert rows - todo == map[];
      while todo != {}
        invariant todo <= rows.Keys && Faithful(reader, rows - todo, index)
        decreases |todo|
      {
        assert (forall r :: r !in todo) ==> todo == {};
        var rowid :| rowid in todo;
        IndexOneMore(reader, rows, todo, rowid, index);
        IndexInsert(rowid, BulkDocument(reader, rows[rowid]));
        todo := todo - {rowid};
      }
      assert rows - todo == rows;
    }

    /** Repairs any index; one that the triggers have kept comes out the same.  A failed statement or
        verification rolls everything back. */
    method RebuildFTS(fails: bool) returns (ok: bool)
      modifies this`index
      ensures ok == !fails
      ensures ok ==> Faithful(reader, rows, index)
      ensures !ok || old(Faithful(reader, rows, index)) ==> index == old(index)
    {
      var before := index;
      index := multiset{};
      BulkInsert();
      ok := !fails;
      if !ok { index := before; }
    }
  }

  lemma IndexOneMore(reader: Reader, rows: map<int, Row>, todo: set<int>, rowid: int, index: multiset<Posting>)
    requires todo <= rows.Keys && rowid in todo && Faithful(reader, rows - todo, index)
    ensures Faithful(reader, rows - (todo - {rowid}), index + multiset(RowPostings(reader, rowid, rows[rowid])))
  {
    EntriesWith(reader, rows - todo, rowid, rows[rowid]);
    MultisetOfUnion(Entries(reader, rows - todo), RowPostings(reader, rowid, rows[rowid]));
    assert rows - (todo - {rowid}) == (rows - todo)[rowid := rows[rowid]];
  }

  /** The texts both kinds of trigger hand to the 'delete' command are exactly those indexed for the row. */
  lemma DeleteFeedsWhatWasIndexed(reader: Reader, rows: map<int, Row>, index: multiset<Posting>, rowid: int)
    requires rowid in rows && Faithful(reader, rows, index)
    ensures SuppliesIndexed(reader, index, rowid, DeleteOld(reader, rows[rowid]))
    ensures SuppliesIndexed(reader, index, rowid, UpdateOld(reader, rows[rowid]))
    ensures Faithful(reader, rows - {rowid}, index - multiset(RowPostings(reader, rowid, rows[rowid])))
  {
    ProjectionsAgree(reader, rows[rowid]);
    EntriesWithout(reader, rows, rowid);
    forall x | x in index && x.rowid == rowid ensures x in RowPostings(reader, rowid, rows[rowid]) && index[x] == 1 {
      var r :| r in rows && x in RowPostings(reader, r, rows[r]);
    }
  }
}
