/** The bookmark tree listed by `ffsclient bookmarks list --format json`. */
module FirefoxStructs {

  import opened Wrappers

  /** `BookmarkId` and `FolderId` are plain string wrappers. */
  type Id = string

  datatype Bookmark = Bookmark(id: Id, title: string, url: string, parentId: Option<Id>)

  datatype Folder = Folder(id: Id, title: string, parentId: Option<Id>, children: seq<BookmarkOrFolder>)

  /** The enum is tagged by its "type" field: "bookmark" or "folder". */
  datatype BookmarkOrFolder = BookmarkItem(bookmark: Bookmark) | FolderItem(folder: Folder)

  /** `BookmarkCollection` dereferences to its map from root name to folder. */
  type BookmarkCollection = map<string, Folder>

  /** `Folder::bookmarks` over a list of children: the bookmark children, in order. */
  function Bookmarks(children: seq<BookmarkOrFolder>): (r: seq<Bookmark>)
    ensures |r| <= |children|
    ensures forall b :: b in r <==> BookmarkItem(b) in children
  {
    if children == [] then []
    else
      var rest := Bookmarks(children[1..]);
      assert forall c :: c in children <==> c == children[0] || c in children[1..];
      match children[0]
      case BookmarkItem(b) => [b] + rest
      case FolderItem(_) => rest
  }

  /** `Folder::sub_folders` and `Folder::into_sub_folders` over a list of
      children: the folder children, in order. */
  function SubFolders(children: seq<BookmarkOrFolder>): (r: seq<Folder>)
    ensures |r| <= |children|
    ensures forall f :: f in r <==> FolderItem(f) in children
  {
    if children == [] then []
    else
      var rest := SubFolders(children[1..]);
      assert forall c :: c in children <==> c == children[0] || c in children[1..];
      match children[0]
      case FolderItem(f) => [f] + rest
      case BookmarkItem(_) => rest
  }

  /** Each child is either a bookmark or a folder, so the two filters split the children. */
  lemma {:induction false} FiltersPartition(children: seq<BookmarkOrFolder>)
    ensures |Bookmarks(children)| + |SubFolders(children)| == |children|
  {
    if children != [] {
      FiltersPartition(children[1..]);
    }
  }

  /** The filters keep the order of the children: filtering a concatenation
      concatenates the filtered parts. */
  lemma {:induction false} FiltersAppend(xs: seq<BookmarkOrFolder>, ys: seq<BookmarkOrFolder>)
    ensures Bookmarks(xs + ys) == Bookmarks(xs) + Bookmarks(ys)
    ensures SubFolders(xs + ys) == SubFolders(xs) + SubFolders(ys)
  {
    if xs != [] {
      assert (xs + ys)[0] == xs[0];
      assert (xs + ys)[1..] == xs[1..] + ys;
      FiltersAppend(xs[1..], ys);
    } else {
      assert xs + ys == ys;
    }
  }

  // ---------------------------------------------------------------------
  // Decoding of the JSON listing: the alias and default rules of the derive.

  datatype Value = Str(s: string) | Null | List(items: seq<Value>) | Object(fields: seq<Field>)
  datatype Field = Field(name: string, value: Value)

  datatype DecodeError =
    | MissingField(field: string)
    | DuplicateField(field: string)
    | InvalidType(field: string)
    | UnknownVariant(tag: string)

  /** The values of the fields whose name is one of `names`, in order. */
  function Occurrences(fields: seq<Field>, names: set<string>): (r: seq<Value>)
    ensures |r| <= |fields|
    ensures forall v :: v in r ==> exists i :: 0 <= i < |fields| && fields[i].name in names && fields[i].value == v
  {
    if fields == [] then []
    else
      var rest := Occurrences(fields[1..], names);
      assert forall v :: v in rest ==> exists i :: 0 <= i < |fields| && fields[i].name in names && fields[i].value == v by {
        forall v | v in rest
          ensures exists i :: 0 <= i < |fields| && fields[i].name in names && fields[i].value == v
        {
          var i :| 0 <= i < |fields[1..]| && fields[1..][i].name in names && fields[1..][i].value == v;
          assert fields[i + 1] == fields[1..][i];
        }
      }
      if fields[0].name in names then [fields[0].value] + rest else rest
  }

  lemma {:induction false} OccurrencesAppend(fields: seq<Field>, more: seq<Field>, names: set<string>)
    ensures Occurrences(fields + more, names) == Occurrences(fields, names) + Occurrences(more, names)
  {
    if fields != [] {
      assert (fields + more)[0] == fields[0];
      assert (fields + more)[1..] == fields[1..] + more;
      OccurrencesAppend(fields[1..], more, names);
    } else {
      assert fields + more == more;
    }
  }

  /** A required string field, known under any of `names`: present exactly once. */
  function RequiredString(fields: seq<Field>, field: string, names: set<string>): (r: Result<string, DecodeError>)
    ensures r.Ok? <==> |Occurrences(fields, names)| == 1 && Occurrences(fields, names)[0].Str?
    ensures r.Ok? ==> Occurrences(fields, names) == [Str(r.value)]
  {
    var found := Occurrences(fields, names);
    if |found| == 0 then Err(MissingField(field))
    else if |found| > 1 then Err(DuplicateField(field))
    else if !found[0].Str? then Err(InvalidType(field))
    else Ok(found[0].s)
  }

  /** An optional id field with a default: absent or null is `None`. */
  function DefaultedId(fields: seq<Field>, field: string): (r: Result<Option<Id>, DecodeError>)
    ensures Occurrences(fields, {field}) == [] ==> r == Ok(None)
    ensures r.Ok? && r.value.Some? ==> Occurrences(fields, {field}) == [Str(r.value.value)]
  {
    var found := Occurrences(fields, {field});
    if |found| == 0 then Ok(None)
    else if |found| > 1 then Err(DuplicateField(field))
    else match found[0]
      case Null => Ok(None)
      case Str(s) => Ok(Some(s))
      case _ => Err(InvalidType(field))
  }

  /** The names under which a bookmark's url is accepted. */
  const UrlNames: set<string> := {"url", "uri", "bmkUri"}

  function DecodeBookmark(fields: seq<Field>): (r: Result<Bookmark, DecodeError>)
    ensures r.Ok? ==> Occurrences(fields, UrlNames) == [Str(r.value.url)]
  {
    match RequiredString(fields, "id", {"id"})
    case Err(e) => Err(e)
    case Ok(id) =>
      match RequiredString(fields, "title", {"title"})
      case Err(e) => Err(e)
      case Ok(title) =>
        match RequiredString(fields, "url", UrlNames)
        case Err(e) => Err(e)
        case Ok(url) =>
          match DefaultedId(fields, "parentid")
          case Err(e) => Err(e)
          case Ok(parentId) => Ok(Bookmark(id, title, url, parentId))
  }

  /** Decodes one node of the listing, selecting the variant by its "type" tag. */
  function Decode(v: Value): (r: Result<BookmarkOrFolder, DecodeError>)
    ensures r.Ok? ==> v.Object?
    ensures r.Ok? && r.value.BookmarkItem? ==> Occurrences(v.fields, {"type"}) == [Str("bookmark")]
    ensures r.Ok? && r.value.FolderItem? ==> Occurrences(v.fields, {"type"}) == [Str("folder")]
    decreases v
  {
    if !v.Object? then Err(InvalidType("BookmarkOrFolder"))
    else
      match RequiredString(v.fields, "type", {"type"})
      case Err(e) => Err(e)
      case Ok(tag) =>
        if tag == "bookmark" then
          match DecodeBookmark(v.fields)
          case Err(e) => Err(e)
          case Ok(b) => Ok(BookmarkItem(b))
        else if tag == "folder" then
          match DecodeFolderHead(v.fields)
          case Err(e) => Err(e)
          case Ok((id, title, parentId)) =>
            var found := Occurrences(v.fields, {"children"});
            if |found| == 0 then Err(MissingField("children"))
            else if |found| > 1 then Err(DuplicateField("children"))
            else if !found[0].List? then Err(InvalidType("children"))
            else
              var items := found[0].items;
              assert found[0] in found;
              var k :| 0 <= k < |v.fields| && v.fields[k].name in {"children"} && v.fields[k].value == found[0];
              assert v.fields[k] in v.fields;
              match DecodeAll(items, v)
              case Err(e) => Err(e)
              case Ok(children) => Ok(FolderItem(Folder(id, title, parentId, children)))
        else Err(UnknownVariant(tag))
  }

  /** Decodes every child, stopping at the first error. */
  function DecodeAll(items: seq<Value>, ghost parent: Value): (r: Result<seq<BookmarkOrFolder>, DecodeError>)
    requires forall i :: 0 <= i < |items| ==> items[i] < parent
    ensures r.Ok? ==> |r.value| == |items|
    decreases parent, |items|
  {
    if items == [] then Ok([])
    else
      match Decode(items[0])
      case Err(e) => Err(e)
      case Ok(first) =>
        match DecodeAll(items[1..], parent)
        case Err(e) => Err(e)
        case Ok(rest) => Ok([first] + rest)
  }

  function DecodeFolderHead(fields: seq<Field>): Result<(Id, string, Option<Id>), DecodeError>
  {
    match RequiredString(fields, "id", {"id"})
    case Err(e) => Err(e)
    case Ok(id) =>
      match RequiredString(fields, "title", {"title"})
      case Err(e) => Err(e)
      case Ok(title) =>
        match DefaultedId(fields, "parentid")
        case Err(e) => Err(e)
        case Ok(parentId) => Ok((id, title, parentId))
  }

  /** A name given by exactly one field has exactly that field's value. */
  lemma {:induction false} OccurrencesUnique(fields: seq<Field>, names: set<string>, i: nat)
    requires i < |fields| && fields[i].name in names
    requires forall j :: 0 <= j < |fields| && j != i ==> fields[j].name !in names
    ensures Occurrences(fields, names) == [fields[i].value]
  {
    if i == 0 {
      OccurrencesNone(fields[1..], names);
    } else {
      OccurrencesUnique(fields[1..], names, i - 1);
    }
  }

  /** No field with a name looked for: nothing occurs. */
  lemma {:induction false} OccurrencesNone(fields: seq<Field>, names: set<string>)
    requires forall j :: 0 <= j < |fields| ==> fields[j].name !in names
    ensures Occurrences(fields, names) == []
  {
    if fields != [] {
      OccurrencesNone(fields[1..], names);
    }
  }

  /** A field whose name is not looked for changes nothing. */
  lemma OccurrencesSkip(fields: seq<Field>, f: Field, names: set<string>)
    requires f.name !in names
    ensures Occurrences(fields + [f], names) == Occurrences(fields, names)
  {
    OccurrencesAppend(fields, [f], names);
    assert Occurrences([f], names) == [];
  }

  /** The url may be given under any one of its names, with the same result. */
  lemma UrlAliases(fields: seq<Field>, name: string, url: string)
    requires name in UrlNames
    requires Occurrences(fields, UrlNames) == []
    ensures DecodeBookmark(fields + [Field(name, Str(url))]) == DecodeBookmark(fields + [Field("url", Str(url))])
    ensures DecodeBookmark(fields + [Field(name, Str(url))]).Ok? ==>
              DecodeBookmark(fields + [Field(name, Str(url))]).value.url == url
  {
    var withName := fields + [Field(name, Str(url))];
    var withUrl := fields + [Field("url", Str(url))];
    OccurrencesSkip(fields, Field(name, Str(url)), {"id"});
    OccurrencesSkip(fields, Field("url", Str(url)), {"id"});
    OccurrencesSkip(fields, Field(name, Str(url)), {"title"});
    OccurrencesSkip(fields, Field("url", Str(url)), {"title"});
    OccurrencesSkip(fields, Field(name, Str(url)), {"parentid"});
    OccurrencesSkip(fields, Field("url", Str(url)), {"parentid"});
    OccurrencesAppend(fields, [Field(name, Str(url))], UrlNames);
    OccurrencesAppend(fields, [Field("url", Str(url))], UrlNames);
    assert Occurrences(withName, UrlNames) == [Str(url)] == Occurrences(withUrl, UrlNames);
  }

  /** The url given under two of its names at once is rejected. */
  lemma UrlTwice(fields: seq<Field>, u1: string, u2: string)
    ensures DecodeBookmark(fields + [Field("uri", Str(u1)), Field("bmkUri", Str(u2))]).Err?
  {
    var all := fields + [Field("uri", Str(u1)), Field("bmkUri", Str(u2))];
    OccurrencesAppend(fields, [Field("uri", Str(u1)), Field("bmkUri", Str(u2))], UrlNames);
    assert |Occurrences(all, UrlNames)| >= 2;
  }

  /** Without a "parentid" field a decoded bookmark has no parent. */
  lemma MissingParentIsNone(fields: seq<Field>)
    requires Occurrences(fields, {"parentid"}) == []
    requires DecodeBookmark(fields).Ok?
    ensures DecodeBookmark(fields).value.parentId == None
  {
  }

  /** The repository's decoding test of a bookmark given with "uri", for any field values. */
  lemma DecodeBookmarkExample(id: Id, title: string, url: string, parent: Id)
    ensures Decode(Object([Field("type", Str("bookmark")), Field("id", Str(id)), Field("title", Str(title)),
                           Field("uri", Str(url)), Field("parentid", Str(parent))]))
            == Ok(BookmarkItem(Bookmark(id, title, url, Some(parent))))
  {
    var fields := [Field("type", Str("bookmark")), Field("id", Str(id)), Field("title", Str(title)),
                   Field("uri", Str(url)), Field("parentid", Str(parent))];
    OccurrencesUnique(fields, {"type"}, 0);
    OccurrencesUnique(fields, {"id"}, 1);
    OccurrencesUnique(fields, {"title"}, 2);
    OccurrencesUnique(fields, UrlNames, 3);
    OccurrencesUnique(fields, {"parentid"}, 4);
  }

  /** The repository's decoding test of a folder given without a parent, for any field values. */
  lemma DecodeFolderExample(id: Id, title: string)
    ensures Decode(Object([Field("type", Str("folder")), Field("id", Str(id)), Field("title", Str(title)),
                           Field("children", List([]))]))
            == Ok(FolderItem(Folder(id, title, None, [])))
  {
    var fields := [Field("type", Str("folder")), Field("id", Str(id)), Field("title", Str(title)),
                   Field("children", List([]))];
    OccurrencesUnique(fields, {"type"}, 0);
    OccurrencesUnique(fields, {"id"}, 1);
    OccurrencesUnique(fields, {"title"}, 2);
    OccurrencesUnique(fields, {"children"}, 3);
    OccurrencesNone(fields, {"parentid"});
  }
}
