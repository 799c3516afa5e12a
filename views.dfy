/** The pure parts of the views (uploadmanager/views.py): the folder path
    shown beside each search result, the search page's title, and where a
    file upload sends the browser. Requests, templates and the ORM stay
    outside the model; the stored folders are the map of `FolderModel`. */
module Views {
  import opened Common
  import opened PyStrings
  import opened FolderModel

  // ---------------------------------------------------------------------
  // SearchView.get_folder_path

  const PathSeparator: string := " / "
  const HomeLabel: string := "Home"

  /** The names collected while walking up from `p`, top-most first: the
      walk stops at the top or at the first folder whose name is empty. */
  ghost function PartsAbove(folders: map<FolderId, FolderRec>, rank: map<FolderId, nat>,
                            p: Option<FolderId>): (parts: seq<string>)
    requires Ranked(folders, rank)
    requires p.Some? ==> p.value in folders
    ensures p.None? ==> parts == []
    ensures p.Some? ==> (parts == [] <==> folders[p.value].name == "")
    ensures parts != [] ==> p.Some? && parts[|parts| - 1] == folders[p.value].name
    decreases if p.Some? then rank[p.value] + 1 else 0
  {
    match p
    case None => []
    case Some(q) =>
      assert ParentBelow(folders, rank, q);
      if folders[q].name == "" then []
      else PartsAbove(folders, rank, folders[q].parent) + [folders[q].name]
  }

  /** The segments `get_folder_path` joins for a stored folder. */
  ghost function PathParts(folders: map<FolderId, FolderRec>, rank: map<FolderId, nat>, id: FolderId)
    : (parts: seq<string>)
    requires Ranked(folders, rank) && id in folders
    ensures |parts| >= 1 && parts[|parts| - 1] == folders[id].name
  {
    assert ParentBelow(folders, rank, id);
    PartsAbove(folders, rank, folders[id].parent) + [folders[id].name]
  }

  /** `get_folder_path(folder)`: `"Home"` for no folder, otherwise the names
      of the folder and its ancestors, top-most first, joined by `" / "`;
      an ancestor with an empty name ends the walk. */
  method GetFolderPath(folders: map<FolderId, FolderRec>, ghost rank: map<FolderId, nat>,
                       folder: Option<FolderId>) returns (s: string)
    requires Ranked(folders, rank)
    requires folder.Some? ==> folder.value in folders
    ensures folder.None? ==> s == HomeLabel
    ensures folder.Some? ==> s == Join(PathParts(folders, rank, folder.value), PathSeparator)
    ensures folder.Some? && folders[folder.value].parent.None? ==> s == folders[folder.value].name
  {
    if folder.None? {
      return HomeLabel;
    }
    var f := folders[folder.value];
    assert ParentBelow(folders, rank, folder.value);
    var pathParts := [f.name];
    var parentFolder := f.parent;
    while parentFolder.Some?
      invariant parentFolder.Some? ==> parentFolder.value in folders
      invariant PathParts(folders, rank, folder.value) == PartsAbove(folders, rank, parentFolder) + pathParts
      decreases if parentFolder.Some? then rank[parentFolder.value] + 1 else 0
    {
      var p := folders[parentFolder.value];
      assert ParentBelow(folders, rank, parentFolder.value);
      if p.name == "" {
        assert PartsAbove(folders, rank, parentFolder) + pathParts == pathParts;
        break;
      }
      pathParts := [p.name] + pathParts;
      parentFolder := p.parent;
    }
    assert PathParts(folders, rank, folder.value) == pathParts;
    s := Join(pathParts, PathSeparator);
  }

  /** The names of a sequence of path entries, in order. */
  function EntryNames(entries: seq<PathEntry>): (names: seq<string>)
    ensures |names| == |entries|
    ensures forall i :: 0 <= i < |entries| ==> names[i] == entries[i].name
  {
    if entries == [] then [] else [entries[0].name] + EntryNames(entries[1..])
  }

  lemma EntryNamesSnoc(entries: seq<PathEntry>, e: PathEntry)
    ensures EntryNames(entries + [e]) == EntryNames(entries) + [e.name]
  {
    var l := EntryNames(entries + [e]);
    var r := EntryNames(entries) + [e.name];
    forall i | 0 <= i < |l| ensures l[i] == r[i] {
      assert (entries + [e])[i] == if i < |entries| then entries[i] else e;
    }
  }

  /** Appending an entry to a path keeps a tail that starts at `j` a tail,
      with the new name at its end. */
  lemma TailStep(above: seq<PathEntry>, e: PathEntry, path: seq<PathEntry>, j: nat, parts: seq<string>)
    requires path == above + [e]
    requires j <= |above| && parts == EntryNames(above[j..])
    requires j > 0 ==> above[j - 1].name == ""
    requires forall i :: j <= i < |above| ==> above[i].name != ""
    ensures j < |path|
    ensures parts + [e.name] == EntryNames(path[j..])
    ensures j > 0 ==> path[j - 1].name == ""
    ensures forall i :: j <= i < |path| - 1 ==> path[i].name != ""
    ensures e.name != "" ==> forall i :: j <= i < |path| ==> path[i].name != ""
  {
    assert path[j..] == above[j..] + [e];
    EntryNamesSnoc(above[j..], e);
    forall i | j <= i < |path| - 1 ensures path[i].name != "" {
      assert path[i] == above[i];
    }
  }

  /** The names the walk keeps from `p` upwards are the tail of `p`'s nested
      path that lies below its nearest empty-named entry (all of it when
      there is none). */
  lemma {:induction false} PartsAboveIsSuffix(folders: map<FolderId, FolderRec>, rank: map<FolderId, nat>,
                                              p: FolderId) returns (k: nat)
    requires Ranked(folders, rank) && p in folders
    ensures var path := NestedPath(folders, rank, p);
      && k <= |path|
      && PartsAbove(folders, rank, Some(p)) == EntryNames(path[k..])
      && (k > 0 ==> path[k - 1].name == "")
      && (forall i :: k <= i < |path| ==> path[i].name != "")
    decreases rank[p]
  {
    var path := NestedPath(folders, rank, p);
    assert ParentBelow(folders, rank, p);
    if folders[p].name == "" {
      k := |path|;
    } else {
      match folders[p].parent
      case None =>
        k := 0;
        assert path == [Entry(folders[p])];
      case Some(q) =>
        var pa := PartsAbove(folders, rank, Some(q));
        var e := Entry(folders[p]);
        assert PartsAbove(folders, rank, Some(p)) == pa + [e.name];
        var j := PartsAboveIsSuffix(folders, rank, q);
        var above := NestedPath(folders, rank, q);
        assert path == above + [e];
        TailStep(above, e, path, j, pa);
        k := j;
    }
  }

  /** In general the folder path is a tail of the nested path: it always
      ends with the folder's own name and drops exactly the entries above
      the nearest ancestor whose name is empty. */
  lemma {:induction false} FolderPathIsNestedPathSuffix(folders: map<FolderId, FolderRec>, rank: map<FolderId, nat>, id: FolderId)
    returns (k: nat)
    requires Ranked(folders, rank) && id in folders
    ensures var path := NestedPath(folders, rank, id);
      && k < |path|
      && PathParts(folders, rank, id) == EntryNames(path[k..])
      && (forall i :: k <= i < |path| - 1 ==> path[i].name != "")
      && (k > 0 ==> path[k - 1].name == "")
  {
    var path := NestedPath(folders, rank, id);
    assert ParentBelow(folders, rank, id);
    if folders[id].parent.None? {
      k := 0;
      assert path == [Entry(folders[id])];
      assert PathParts(folders, rank, id) == [folders[id].name];
    } else {
      k := FolderPathBelowParent(folders, rank, id, folders[id].parent.value);
    }
  }

  /** The case of a folder with a parent `q`: the tail of `q`'s nested path
      kept by the walk, followed by the folder's own entry. */
  lemma {:induction false} FolderPathBelowParent(folders: map<FolderId, FolderRec>, rank: map<FolderId, nat>,
                                                 id: FolderId, q: FolderId) returns (k: nat)
    requires Ranked(folders, rank) && id in folders && folders[id].parent == Some(q)
    ensures var path := NestedPath(folders, rank, id);
      && k < |path|
      && PathParts(folders, rank, id) == EntryNames(path[k..])
      && (forall i :: k <= i < |path| - 1 ==> path[i].name != "")
      && (k > 0 ==> path[k - 1].name == "")
  {
    assert ParentBelow(folders, rank, id);
    var path := NestedPath(folders, rank, id);
    var pa := PartsAbove(folders, rank, Some(q));
    var e := Entry(folders[id]);
    assert PathParts(folders, rank, id) == pa + [e.name];
    var j := PartsAboveIsSuffix(folders, rank, q);
    var above := NestedPath(folders, rank, q);
    assert path == above + [e];
    TailStep(above, e, path, j, pa);
    k := j;
  }

  /** With no empty name among the ancestors, the folder path lists exactly
      the names of `get_nested_path`'s entries, in the same order. */
  lemma FolderPathMatchesNestedPath(folders: map<FolderId, FolderRec>, rank: map<FolderId, nat>, id: FolderId)
    requires Ranked(folders, rank) && id in folders
    requires var path := NestedPath(folders, rank, id);
      forall i :: 0 <= i < |path| - 1 ==> path[i].name != ""
    ensures PathParts(folders, rank, id) == EntryNames(NestedPath(folders, rank, id))
  {
    var path := NestedPath(folders, rank, id);
    var k := FolderPathIsNestedPathSuffix(folders, rank, id);
    assert k == 0;
    assert path[k..] == path;
  }

  // ---------------------------------------------------------------------
  // SearchView.get: the query and the title

  /** `request.GET.get("search", "").strip()`. */
  function SearchQuery(search: Option<string>): (q: string)
    ensures |q| <= |search.GetOr("")|
  {
    Strip(search.GetOr(""))
  }

  /** The page title: the stripped query in double quotes, or a bare title
      when the query is empty. */
  function SearchTitle(search: Option<string>): (title: string)
    ensures SearchQuery(search) == "" ==> title == "Search results"
    ensures SearchQuery(search) != "" ==> title == "Search results for: \"" + SearchQuery(search) + "\""
  {
    var q := SearchQuery(search);
    if q != "" then "Search results for: \"" + q + "\"" else "Search results"
  }

  /** The bare title is shown exactly when no query was sent or it is all
      whitespace. */
  lemma SearchTitleCases(search: Option<string>)
    ensures SearchTitle(search) == "Search results" <==>
      search.None? || forall i :: 0 <= i < |search.value| ==> IsSpace(search.value[i])
  {
    var q := SearchQuery(search);
    if search.Some? {
      StripEmptyIffBlank(search.value);
    }
    if q != "" {
      assert |SearchTitle(search)| > |"Search results"|;
    }
  }

  /** A non-empty query starts and ends with a non-space character and is
      the slice of what was sent that starts at `lead`. */
  lemma SearchQueryIsSlice(search: Option<string>) returns (lead: nat)
    ensures var q := SearchQuery(search);
      q != "" ==> (search.Some? && !IsSpace(q[0]) && !IsSpace(q[|q| - 1]) &&
                   lead + |q| <= |search.value| && q == search.value[lead..lead + |q|])
  {
    if search.Some? {
      assert SearchQuery(search) == Strip(search.value);
      lead := StripIsTrim(search.value);
    } else {
      lead := 0;
    }
  }

  // ---------------------------------------------------------------------
  // FileUploadView.post: where the browser goes

  datatype Response =
    | NotFound                        // get_object_or_404 found no folder
    | Redirect(location: string)      // the upload was saved
    | Rerender(folder: Option<string>) // the form had errors; shown again

  /** The redirect target for a folder slug after a successful upload. */
  function FolderUrl(slug: string): (u: string)
    ensures StartsWith(u, "/folder/") && u[|u| - 1] == '/'
  {
    "/folder/" + slug + "/"
  }

  /** `FileUploadView.post`: a non-empty `parent_slug` must name a stored
      folder (slugs are unique), then a valid form is saved and the browser
      goes to that folder's page, or home when there is no folder. */
  function UploadResponse(parentSlug: Option<string>, slugs: set<string>, formValid: bool): (r: Response)
    ensures var hasFolder := parentSlug.Some? && parentSlug.value != "";
      && (r.NotFound? <==> hasFolder && parentSlug.value !in slugs)
      && (r.Redirect? <==> formValid && !(hasFolder && parentSlug.value !in slugs))
      && (r.Redirect? ==> r.location == if hasFolder then FolderUrl(parentSlug.value) else "/")
      && (r.Rerender? ==> r.folder == if hasFolder then parentSlug else None)
  {
    var folder: Option<string> :=
      if parentSlug.Some? && parentSlug.value != "" then Some(parentSlug.value) else None;
    if folder.Some? && folder.value !in slugs then NotFound
    else if formValid then Redirect(if folder.Some? then FolderUrl(folder.value) else "/")
    else Rerender(folder)
  }

  /** The folder can be read back from the redirect: dropping the
      `/folder/` prefix and the final `/` gives the slug, so distinct
      folders redirect to distinct pages, and none of them to home. */
  lemma FolderUrlRoundTrip(slug: string)
    ensures var u := FolderUrl(slug);
      |u| == |slug| + 9 && u[8..|u| - 1] == slug && u != "/"
  {
  }

  lemma FolderUrlInjective(a: string, b: string)
    requires FolderUrl(a) == FolderUrl(b)
    ensures a == b
  {
    FolderUrlRoundTrip(a);
    FolderUrlRoundTrip(b);
  }
}
