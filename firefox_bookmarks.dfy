/** The bookmark operations of `Client`: listing, folder lookup by path,
    creation, deletion and moving. */
module FirefoxBookmarks {

  import opened Wrappers
  import opened Text
  import opened DonErrors
  import opened DonErrorLib
  import opened OptionExtensions
  import opened FirefoxStructs
  import opened FirefoxClient
  import opened Process

  const ListBookmarksArgs: seq<string> := ["bookmarks", "list", "--format", "json", "--ignore-schema-errors"]

  /** The JSON decoding of a listing, given as a parameter: its outcome on the tool's output. */
  type ParseListing = string -> Result<BookmarkCollection, AnyError>

  function Decoded(parse: ParseListing, output: string): DonResult<BookmarkCollection>
  {
    match parse(output)
    case Ok(collection) => Ok(collection)
    case Err(e) => Err(FromError(e))
  }

  /** `get_all_bookmarks`: lists the bookmarks and decodes the output. */
  function GetAllBookmarks(c: Client, ffs: Ffsclient, log: seq<Command>, parse: ParseListing)
    : (r: (DonResult<BookmarkCollection>, seq<Command>))
    // A listing is the decoding of the stdout of a successful run of the
    // list command, the last command of the call.
    ensures r.0.Ok? ==> |r.1| > |log| && r.1[|r.1| - 1] == CommandOf(ListBookmarksArgs)
                        && var out := ffs(r.1[..|r.1| - 1], CommandOf(ListBookmarksArgs));
                           out.Exited? && out.success && parse(out.stdout) == Ok(r.0.value)
    // A first run that succeeds is decoded; an output that does not decode is an error.
    ensures var out := ffs(log, CommandOf(ListBookmarksArgs));
            out.Exited? && out.success ==>
              r.1 == log + [CommandOf(ListBookmarksArgs)]
              && (parse(out.stdout).Err? ==> r.0 == Err(FromError(parse(out.stdout).error)))
  {
    TryCommandAndThen(c, ffs, log, ListBookmarksArgs, out => Decoded(parse, out))
  }

  /** The first folder of `folders` with title `title`. */
  function FirstTitled(folders: seq<Folder>, title: string): (r: Option<Folder>)
    ensures r.None? <==> forall i :: 0 <= i < |folders| ==> folders[i].title != title
    ensures r.Some? ==> exists i :: 0 <= i < |folders| && folders[i] == r.value && r.value.title == title
                                    && forall j :: 0 <= j < i ==> folders[j].title != title
  {
    if folders == [] then None
    else if folders[0].title == title then Some(folders[0])
    else
      var r := FirstTitled(folders[1..], title);
      assert forall i :: 1 <= i < |folders| ==> folders[i] == folders[1..][i - 1];
      if r.Some? then
        var i :| 0 <= i < |folders[1..]| && folders[1..][i] == r.value && r.value.title == title
                 && forall j :: 0 <= j < i ==> folders[1..][j].title != title;
        assert folders[i + 1] == r.value;
        r
      else r
  }

  function SegmentMissing(name: string): string
  {
    name + " doesn't exists"
  }

  /** Follows `names` down from `folder`, each name selecting the first
      sub-folder with that title. */
  function Descend(folder: Folder, names: seq<string>): (r: DonResult<Folder>)
    ensures r.Ok? && names != [] ==> r.value.title == names[|names| - 1]
    ensures r.Err? ==> exists i :: 0 <= i < |names| && r.error == ErrMsg(SegmentMissing(names[i]))
    decreases |names|
  {
    if names == [] then Ok(folder)
    else
      match FirstTitled(SubFolders(folder.children), names[0])
      case None => Err(ErrMsg(SegmentMissing(names[0])))
      case Some(sub) =>
        var r := Descend(sub, names[1..]);
        assert r.Err? ==> exists i :: 0 <= i < |names| && r.error == ErrMsg(SegmentMissing(names[i])) by {
          if r.Err? {
            var i :| 0 <= i < |names[1..]| && r.error == ErrMsg(SegmentMissing(names[1..][i]));
            assert names[1..][i] == names[i + 1];
          }
        }
        if r.Ok? && |names| == 1 then
          assert names[1..] == [];
          r
        else r
  }

  /** Following one more name: an error stays the error; otherwise the first
      sub-folder with that title is selected, and with none the error names
      that segment. With `Descend(folder, []) == Ok(folder)` this says what
      every segment does, and that the error names the first missing one. */
  lemma {:induction false} DescendAppend(folder: Folder, names: seq<string>, name: string)
    ensures Descend(folder, names + [name]) ==
              match Descend(folder, names)
              case Err(e) => Err(e)
              case Ok(last) =>
                match FirstTitled(SubFolders(last.children), name)
                case None => Err(ErrMsg(SegmentMissing(name)))
                case Some(sub) => Ok(sub)
    decreases |names|
  {
    if names == [] {
      assert names + [name] == [name];
      assert [name][1..] == [];
    } else {
      assert (names + [name])[0] == names[0];
      assert (names + [name])[1..] == names[1..] + [name];
      match FirstTitled(SubFolders(folder.children), names[0])
      case None =>
      case Some(sub) =>
        DescendAppend(sub, names[1..], name);
    }
  }

  /** The error for a path whose first segment is not a root of the
      collection, as the code writes it: the text is used as is, not
      formatted, so it shows "{path}" and not the path. */
  function MissingRootMessageAsWritten(path: string): string
  {
    "{path} doesn't exists in collection"
  }

  /** The error for a path whose first segment is not a root of the collection. */
  function MissingRootMessage(path: string): string
  {
    path + " doesn't exists in collection"
  }

  /** As written, the message is the same whichever path was asked for. */
  lemma MissingRootMessageAsWrittenOmitsPath()
    ensures MissingRootMessageAsWritten("toolbar/Wallpaper") == MissingRootMessageAsWritten("menu")
  {
  }

  /** Corrected, the message names the path that was asked for. */
  lemma MissingRootMessageNamesPath(p1: string, p2: string)
    requires MissingRootMessage(p1) == MissingRootMessage(p2)
    ensures p1 == p2
  {
    var suffix := " doesn't exists in collection";
    assert MissingRootMessage(p1)[..|p1|] == p1;
    assert |p1| == |MissingRootMessage(p1)| - |suffix| == |p2|;
    assert MissingRootMessage(p2)[..|p2|] == p2;
  }

  /** Resolves a `/`-separated path in a listed collection: the first segment
      names a root folder, every later one a sub-folder. */
  function Resolve(collection: BookmarkCollection, path: string): (r: DonResult<Folder>)
    ensures path == [] ==> r == Err(ErrMsg("Empty path"))
    ensures path != [] && Split(path, '/')[0] !in collection ==> r == Err(ErrMsg(MissingRootMessage(path)))
    ensures path != [] && Split(path, '/')[0] in collection ==>
              r == Descend(collection[Split(path, '/')[0]], Split(path, '/')[1..])
  {
    if path == [] then Bail("Empty path")
    else
      var segments := Split(path, '/');
      match OkOrDonErr(if segments[0] in collection then Some(collection[segments[0]]) else None,
                       MissingRootMessage(path))
      case Err(e) => Err(e)
      case Ok(root) => Descend(root, segments[1..])
  }

  /** A path without '/' naming a root gives that root folder. */
  lemma ResolveOneSegment(collection: BookmarkCollection, path: string)
    requires path != [] && '/' !in path && path in collection
    ensures Resolve(collection, path) == Ok(collection[path])
  {
    SplitWithout(path, '/');
  }

  /** A longer path that resolves ends on a folder titled by its last segment. */
  lemma ResolveTitle(collection: BookmarkCollection, path: string)
    requires Resolve(collection, path).Ok? && |Split(path, '/')| > 1
    ensures Resolve(collection, path).value.title == Split(path, '/')[|Split(path, '/')| - 1]
  {
    var segments := Split(path, '/');
    assert segments[1..][|segments[1..]| - 1] == segments[|segments| - 1];
  }

  /** What `get_folder` returns, given the outcome of the listing: a listing
      error comes first, even for an empty path. */
  function GetFolderOf(listing: DonResult<BookmarkCollection>, path: string): (r: DonResult<Folder>)
    ensures listing.Err? ==> r == Err(listing.error)
    ensures listing.Ok? ==> r == Resolve(listing.value, path)
  {
    match listing
    case Err(e) => Err(e)
    case Ok(collection) => Resolve(collection, path)
  }

  /** `get_folder`: lists the bookmarks, takes the root folder named by the
      first segment out of the collection, then walks down one segment at a time. */
  method GetFolder(c: Client, ffs: Ffsclient, log: seq<Command>, parse: ParseListing, path: string)
    returns (r: DonResult<Folder>, commands: seq<Command>)
    ensures commands == GetAllBookmarks(c, ffs, log, parse).1
    ensures r == GetFolderOf(GetAllBookmarks(c, ffs, log, parse).0, path)
  {
    var listing;
    listing, commands := GetAllBookmarks(c, ffs, log, parse).0, GetAllBookmarks(c, ffs, log, parse).1;
    if listing.Err? {
      return Err(listing.error), commands;
    }
    var collection := listing.value;
    if path == [] {
      return Bail("Empty path"), commands;
    }
    var segments := Split(path, '/');
    if segments[0] !in collection {
      return Err(ErrMsg(MissingRootMessage(path))), commands;
    }
    var folder := collection[segments[0]];
    ghost var root := folder;
    collection := collection - {segments[0]};
    for i := 1 to |segments|
      invariant Descend(folder, segments[i..]) == Descend(root, segments[1..])
    {
      assert segments[i..][1..] == segments[i + 1..];
      match FirstTitled(SubFolders(folder.children), segments[i])
      case None =>
        return Err(ErrMsg(SegmentMissing(segments[i]))), commands;
      case Some(sub) =>
        folder := sub;
    }
    assert segments[|segments|..] == [];
    r := Ok(folder);
  }

  datatype CreateBookmarkInput = CreateBookmarkInput(url: string, title: string, parentId: Id)
  datatype CreateFolderInput = CreateFolderInput(title: string, parentId: Id)

  function CreateBookmarkArgs(input: CreateBookmarkInput): seq<string>
  {
    ["bookmarks", "create", "bookmark", input.title, input.url, "--parent", input.parentId]
  }

  function CreateFolderArgs(input: CreateFolderInput): seq<string>
  {
    ["bookmarks", "create", "folder", input.title, "--parent", input.parentId]
  }

  function DeleteArgs(id: Id): seq<string>
  {
    ["bookmarks", "delete", id]
  }

  /** `create_bookmark`: the new bookmark echoes the input, under the id the tool printed. */
  function CreateBookmark(c: Client, ffs: Ffsclient, log: seq<Command>, input: CreateBookmarkInput)
    : (r: (DonResult<Bookmark>, seq<Command>))
    ensures r.0.Ok? ==> r.0.value.url == input.url && r.0.value.title == input.title
                        && r.0.value.parentId == Some(input.parentId)
    ensures r.0.Ok? ==> |r.1| > |log| && r.1[|r.1| - 1] == CommandOf(CreateBookmarkArgs(input))
                        && var out := ffs(r.1[..|r.1| - 1], CommandOf(CreateBookmarkArgs(input)));
                           out.Exited? && out.success && out.stdout == r.0.value.id
  {
    TryCommandAndThen(c, ffs, log, CreateBookmarkArgs(input),
                      id => Ok(Bookmark(id, input.title, input.url, Some(input.parentId))))
  }

  /** `create_folder`: the new folder echoes the input, under the id the tool
      printed, and has no children. */
  function CreateFolder(c: Client, ffs: Ffsclient, log: seq<Command>, input: CreateFolderInput)
    : (r: (DonResult<Folder>, seq<Command>))
    ensures r.0.Ok? ==> r.0.value.title == input.title && r.0.value.parentId == Some(input.parentId)
                        && r.0.value.children == []
    ensures r.0.Ok? ==> |r.1| > |log| && r.1[|r.1| - 1] == CommandOf(CreateFolderArgs(input))
                        && var out := ffs(r.1[..|r.1| - 1], CommandOf(CreateFolderArgs(input)));
                           out.Exited? && out.success && out.stdout == r.0.value.id
  {
    TryCommandAndThen(c, ffs, log, CreateFolderArgs(input),
                      id => Ok(Folder(id, input.title, Some(input.parentId), [])))
  }

  /** `delete_bookmark` */
  function DeleteBookmark(c: Client, ffs: Ffsclient, log: seq<Command>, id: Id): (r: (DonResult<()>, seq<Command>))
    ensures |r.1| > |log| && r.1[..|log| + 1] == log + [CommandOf(DeleteArgs(id))]
  {
    TryCommand(c, ffs, log, DeleteArgs(id))
  }

  /** The commands a `try_command_and_then` of `args` may run. */
  predicate OnlyRuns(c: Client, commands: seq<Command>, args: seq<string>)
  {
    forall i :: 0 <= i < |commands| ==> commands[i] == CommandOf(args) || commands[i] == CommandOf(LoginArgs(c))
  }

  /** `move_bookmark`: nothing when the bookmark is already in `parent`;
      otherwise a copy is created in `parent` and then the original is
      deleted, the delete being skipped when the create fails. */
  function MoveBookmark(c: Client, ffs: Ffsclient, log: seq<Command>, bookmark: Bookmark, parent: Folder)
    : (r: (DonResult<()>, seq<Command>))
    ensures bookmark.parentId == Some(parent.id) ==> r == (Ok(()), log)
    ensures bookmark.parentId != Some(parent.id) ==>
              var input := CreateBookmarkInput(bookmark.url, bookmark.title, parent.id);
              var created := CreateBookmark(c, ffs, log, input);
              |r.1| > |log| && r.1[|log|] == CommandOf(CreateBookmarkArgs(input))
              && (created.0.Err? ==> r.0.Err? && OnlyRuns(c, r.1[|log|..], CreateBookmarkArgs(input)))
              && (created.0.Ok? ==> |r.1| > |created.1| && r.1[..|created.1| + 1] == created.1 + [CommandOf(DeleteArgs(bookmark.id))])
              && (r.0.Ok? ==> created.0.Ok?)
  {
    if bookmark.parentId == Some(parent.id) then (Ok(()), log)
    else
      var input := CreateBookmarkInput(bookmark.url, bookmark.title, parent.id);
      match CreateBookmark(c, ffs, log, input)
      case (Err(e), log1) => (Err(e), log1)
      case (Ok(_), log1) => DeleteBookmark(c, ffs, log1, bookmark.id)
  }

  /** When the create fails, the original is never deleted. */
  lemma FailedMoveKeepsOriginal(c: Client, ffs: Ffsclient, log: seq<Command>, bookmark: Bookmark, parent: Folder)
    requires bookmark.parentId != Some(parent.id)
    requires CreateBookmark(c, ffs, log, CreateBookmarkInput(bookmark.url, bookmark.title, parent.id)).0.Err?
    ensures CommandOf(DeleteArgs(bookmark.id)) !in MoveBookmark(c, ffs, log, bookmark, parent).1[|log|..]
  {
    var input := CreateBookmarkInput(bookmark.url, bookmark.title, parent.id);
    var commands := MoveBookmark(c, ffs, log, bookmark, parent).1[|log|..];
    forall i | 0 <= i < |commands| ensures commands[i] != CommandOf(DeleteArgs(bookmark.id)) {
      assert CreateBookmarkArgs(input)[1] != DeleteArgs(bookmark.id)[1];
      assert LoginArgs(c)[0] != DeleteArgs(bookmark.id)[0];
    }
  }
}
