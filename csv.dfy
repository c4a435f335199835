/** The CSV export of csv.ts: one row per album directory found two levels
    below the root, behind an artist/album header, written with '|' between
    fields and '\n' between rows. The directory walk is given as the listing
    each readDir call yields, in the order it yields it. */
module Csv {
  import opened Js

  /** An entry of a directory listing. */
  datatype DirEntry = DirEntry(name: string, isDirectory: bool)

  /** An entry of the root listing together with the listing of that path,
      which is read only when the entry is a directory. */
  datatype ArtistListing = ArtistListing(entry: DirEntry, contents: seq<DirEntry>)

  type Row = seq<string>

  const Header: Row := ["artist", "album"]
  const FieldSeparator := '|'
  const RowSeparator := '\n'

  /** The rows one artist directory contributes: one per album directory in
      its listing, in listing order. */
  function AlbumRows(artist: string, contents: seq<DirEntry>): seq<Row>
  {
    if |contents| == 0 then []
    else
      var last := contents[|contents| - 1];
      AlbumRows(artist, contents[..|contents| - 1]) + (if last.isDirectory then [[artist, last.name]] else [])
  }

  /** The rows below the header for a whole root listing: entries that are not
      directories, at either level, contribute nothing. */
  function ArtistRows(root: seq<ArtistListing>): seq<Row>
  {
    if |root| == 0 then []
    else
      var last := root[|root| - 1];
      ArtistRows(root[..|root| - 1]) + (if last.entry.isDirectory then AlbumRows(last.entry.name, last.contents) else [])
  }

  /** A row of the album listing is exactly an album directory of an artist
      directory. */
  lemma {:induction false} AlbumRowsMembers(artist: string, contents: seq<DirEntry>, row: Row)
    ensures row in AlbumRows(artist, contents) <==> exists e :: e in contents && e.isDirectory && row == [artist, e.name]
  {
    if |contents| > 0 {
      var init := contents[..|contents| - 1];
      var last := contents[|contents| - 1];
      AlbumRowsMembers(artist, init, row);
      assert contents == init + [last];
      assert forall e :: e in contents <==> e in init || e == last;
    }
  }

  /** A data row is exactly an album directory below an artist directory. */
  lemma {:induction false} ArtistRowsMembers(root: seq<ArtistListing>, row: Row)
    ensures row in ArtistRows(root) <==>
            exists a, e :: a in root && a.entry.isDirectory && e in a.contents && e.isDirectory && row == [a.entry.name, e.name]
  {
    if |root| > 0 {
      var init := root[..|root| - 1];
      var last := root[|root| - 1];
      ArtistRowsMembers(init, row);
      AlbumRowsMembers(last.entry.name, last.contents, row);
      assert root == init + [last];
      assert forall a :: a in root <==> a in init || a == last;
    }
  }

  /** The number of directories in a listing. */
  function DirectoryCount(contents: seq<DirEntry>): nat
  {
    if |contents| == 0 then 0
    else (if contents[0].isDirectory then 1 else 0) + DirectoryCount(contents[1..])
  }

  /** The number of album directories below artist directories. */
  function AlbumCount(root: seq<ArtistListing>): nat
  {
    if |root| == 0 then 0
    else (if root[0].entry.isDirectory then DirectoryCount(root[0].contents) else 0) + AlbumCount(root[1..])
  }

  lemma {:induction false} DirectoryCountAppend(a: seq<DirEntry>, b: seq<DirEntry>)
    ensures DirectoryCount(a + b) == DirectoryCount(a) + DirectoryCount(b)
  {
    if |a| > 0 {
      assert (a + b)[1..] == a[1..] + b;
      DirectoryCountAppend(a[1..], b);
    } else {
      assert a + b == b;
    }
  }

  lemma {:induction false} AlbumCountAppend(a: seq<ArtistListing>, b: seq<ArtistListing>)
    ensures AlbumCount(a + b) == AlbumCount(a) + AlbumCount(b)
  {
    if |a| > 0 {
      assert (a + b)[1..] == a[1..] + b;
      AlbumCountAppend(a[1..], b);
    } else {
      assert a + b == b;
    }
  }

  /** One row per album directory of a listing. */
  lemma {:induction false} AlbumRowsCount(artist: string, contents: seq<DirEntry>)
    ensures |AlbumRows(artist, contents)| == DirectoryCount(contents)
  {
    if |contents| > 0 {
      var init := contents[..|contents| - 1];
      var last := contents[|contents| - 1];
      AlbumRowsCount(artist, init);
      assert contents == init + [last];
      DirectoryCountAppend(init, [last]);
    }
  }

  /** One data row per album directory below an artist directory. */
  lemma {:induction false} ArtistRowsCount(root: seq<ArtistListing>)
    ensures |ArtistRows(root)| == AlbumCount(root)
  {
    if |root| > 0 {
      var init := root[..|root| - 1];
      var last := root[|root| - 1];
      ArtistRowsCount(init);
      AlbumRowsCount(last.entry.name, last.contents);
      assert root == init + [last];
      AlbumCountAppend(init, [last]);
    }
  }

  /** The walk of csv.ts: data starts as the header, and each album directory
      below an artist directory pushes [artist, album]. */
  method CollectRows(root: seq<ArtistListing>) returns (data: seq<Row>)
    ensures data == [Header] + ArtistRows(root)
  {
    data := [Header];
    var i := 0;
    while i < |root|
      invariant 0 <= i <= |root|
      invariant data == [Header] + ArtistRows(root[..i])
    {
      var artist := root[i];
      ghost var before := ArtistRows(root[..i]);
      assert root[..i + 1][..i] == root[..i] && root[..i + 1][i] == artist;
      if artist.entry.isDirectory {
        var j := 0;
        assert artist.contents[..0] == [];
        while j < |artist.contents|
          invariant 0 <= j <= |artist.contents|
          invariant data == [Header] + before + AlbumRows(artist.entry.name, artist.contents[..j])
        {
          var album := artist.contents[j];
          assert artist.contents[..j + 1][..j] == artist.contents[..j] && artist.contents[..j + 1][j] == album;
          if album.isDirectory {
            data := data + [[artist.entry.name, album.name]];
          }
          j := j + 1;
        }
        assert artist.contents[..j] == artist.contents;
        assert ArtistRows(root[..i + 1]) == before + AlbumRows(artist.entry.name, artist.contents);
      } else {
        assert ArtistRows(root[..i + 1]) == before + [];
      }
      i := i + 1;
    }
    assert root[..i] == root;
  }

  /** The text of each row: its fields joined by '|'. */
  function Lines(data: seq<Row>): (lines: seq<string>)
    ensures |lines| == |data|
    ensures forall i :: 0 <= i < |data| ==> lines[i] == Join(data[i], [FieldSeparator])
  {
    seq(|data|, i requires 0 <= i < |data| => Join(data[i], [FieldSeparator]))
  }

  /** data.map(row => row.join("|")).join("\n"): no quoting, no escaping and
      no newline after the last row. */
  function Serialize(data: seq<Row>): string
  {
    Join(Lines(data), [RowSeparator])
  }

  /** Reading the text back: lines at '\n', fields at '|'. */
  function Parse(text: string): (data: seq<Row>)
  {
    var lines := Split(text, RowSeparator);
    seq(|lines|, i requires 0 <= i < |lines| => Split(lines[i], FieldSeparator))
  }

  /** No field holds either separator. */
  predicate Plain(data: seq<Row>)
  {
    forall i, k :: 0 <= i < |data| && 0 <= k < |data[i]| ==> FieldSeparator !in data[i][k] && RowSeparator !in data[i][k]
  }

  /** No field holds a newline. */
  predicate NoRowSeparators(data: seq<Row>)
  {
    forall i, k :: 0 <= i < |data| && 0 <= k < |data[i]| ==> RowSeparator !in data[i][k]
  }

  lemma LineHasNoRowSeparator(row: Row)
    requires forall k :: 0 <= k < |row| ==> RowSeparator !in row[k]
    ensures RowSeparator !in Join(row, [FieldSeparator])
  {
    if |row| > 1 {
      LineHasNoRowSeparator(row[1..]);
      assert Join(row, [FieldSeparator]) == row[0] + [FieldSeparator] + Join(row[1..], [FieldSeparator]);
    }
  }

  /** Without newlines inside names, the text splits back into one line per
      row, the header's included. */
  lemma SerializedLines(data: seq<Row>)
    requires |data| >= 1 && NoRowSeparators(data)
    ensures Split(Serialize(data), RowSeparator) == Lines(data)
  {
    var lines := Lines(data);
    forall i | 0 <= i < |lines|
      ensures RowSeparator !in lines[i]
    {
      LineHasNoRowSeparator(data[i]);
    }
    assert [RowSeparator] + "" == [RowSeparator];
    SplitJoin(lines, RowSeparator, "");
    var r := Split(Serialize(data), RowSeparator);
    forall i | 0 <= i < |lines|
      ensures r[i] == lines[i]
    {
      if i > 0 {
        assert r[i] == "" + lines[i];
      }
    }
  }

  /** Without separators inside names, parsing the text gives back every row
      that has at least one field. */
  lemma ParseSerialize(data: seq<Row>)
    requires |data| >= 1 && Plain(data)
    requires forall i :: 0 <= i < |data| ==> |data[i]| >= 1
    ensures Parse(Serialize(data)) == data
  {
    SerializedLines(data);
    var lines := Lines(data);
    var parsed := Parse(Serialize(data));
    forall i | 0 <= i < |data|
      ensures parsed[i] == data[i]
    {
      var row := data[i];
      assert [FieldSeparator] + "" == [FieldSeparator];
      SplitJoin(row, FieldSeparator, "");
      var s := Split(lines[i], FieldSeparator);
      assert |s| == |row|;
      forall k | 0 <= k < |row|
        ensures s[k] == row[k]
      {
        if k > 0 {
          assert s[k] == "" + row[k];
        }
      }
    }
  }

  /** The whole script: the text written to out.csv. */
  method ExportCsv(root: seq<ArtistListing>) returns (csv: string)
    ensures csv == Serialize([Header] + ArtistRows(root))
  {
    var data := CollectRows(root);
    csv := Serialize(data);
  }

  /** The file has one line for the header and one per album directory, as
      long as no name holds a newline. */
  lemma ExportLineCount(root: seq<ArtistListing>)
    requires forall a, e :: a in root && e in a.contents ==> RowSeparator !in a.entry.name && RowSeparator !in e.name
    ensures |Split(Serialize([Header] + ArtistRows(root)), RowSeparator)| == 1 + AlbumCount(root)
  {
    var data := [Header] + ArtistRows(root);
    forall i, k | 0 <= i < |data| && 0 <= k < |data[i]|
      ensures RowSeparator !in data[i][k]
    {
      if i > 0 {
        var row := data[i];
        assert row in ArtistRows(root);
        ArtistRowsMembers(root, row);
      }
    }
    SerializedLines(data);
    ArtistRowsCount(root);
  }
}
