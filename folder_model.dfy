/** Folders of the upload manager (uploadmanager/models.py): the name
    validator, `Folder.save` (collision-free name and slug), and the stored
    folder tree walked by `Folder.get_nested_path`. */
module FolderModel {
  import opened Common
  import opened PyStrings

  type UserId = nat
  type FolderId = nat

  // ---------------------------------------------------------------------
  // validate_name

  /** The validator's "invalid characters" string, brackets included:
      it is iterated character by character, not used as a pattern. */
  const InvalidChars: string := "[@#%$*&<>?|/:]"

  const InvalidNameMessage: string :=
    "Folder name cannot contain invalid characters: @#%$*&<>?|/:"

  /** `any(char in value for char in chars)`. */
  function AnyCharIn(chars: string, value: string): (r: bool)
    ensures r <==> exists i :: 0 <= i < |chars| && chars[i] in value
  {
    if chars == [] then false
    else if chars[0] in value then true
    else
      assert forall i :: 1 <= i < |chars| ==> chars[i] == chars[1..][i - 1];
      AnyCharIn(chars[1..], value)
  }

  /** `validate_name`: raises when the name contains any character of
      `InvalidChars`. */
  function ValidateName(value: string): (r: Outcome)
    ensures r.Fail? ==> r.message == InvalidNameMessage
  {
    if AnyCharIn(InvalidChars, value) then Fail(InvalidNameMessage) else Pass
  }

  /** A name is rejected exactly when it contains one of these fourteen
      characters, `[` and `]` among them. */
  lemma ValidateNameRejectsExactly(value: string)
    ensures ValidateName(value).Pass? <==>
      forall c :: c in value ==> c !in {'[', '@', '#', '%', '$', '*', '&', '<', '>', '?', '|', '/', ':', ']'}
  {
    var bad := {'[', '@', '#', '%', '$', '*', '&', '<', '>', '?', '|', '/', ':', ']'};
    forall c | c in bad ensures exists i :: 0 <= i < |InvalidChars| && InvalidChars[i] == c {
      if c == '[' { assert InvalidChars[0] == c; }
      else if c == '@' { assert InvalidChars[1] == c; }
      else if c == '#' { assert InvalidChars[2] == c; }
      else if c == '%' { assert InvalidChars[3] == c; }
      else if c == '$' { assert InvalidChars[4] == c; }
      else if c == '*' { assert InvalidChars[5] == c; }
      else if c == '&' { assert InvalidChars[6] == c; }
      else if c == '<' { assert InvalidChars[7] == c; }
      else if c == '>' { assert InvalidChars[8] == c; }
      else if c == '?' { assert InvalidChars[9] == c; }
      else if c == '|' { assert InvalidChars[10] == c; }
      else if c == '/' { assert InvalidChars[11] == c; }
      else if c == ':' { assert InvalidChars[12] == c; }
      else { assert InvalidChars[13] == c; }
    }
    assert forall i :: 0 <= i < |InvalidChars| ==> InvalidChars[i] in bad;
  }

  // ---------------------------------------------------------------------
  // Folder.save: name collisions

  /** The uniqueness triple of a folder: name, parent (`is_parent`), owner. */
  datatype FolderKey = FolderKey(name: string, parent: Option<FolderId>, user: UserId)

  predicate EndsWithDigit(s: string) {
    |s| > 0 && IsDigit(s[|s| - 1])
  }

  /** One pass of the renaming loop: drop one trailing digit if there is
      one, then append the counter. */
  function Renamed(name: string, count: nat): (r: string)
    requires name != ""
    ensures EndsWithDigit(r)
    ensures |r| == |name| - (if EndsWithDigit(name) then 1 else 0) + |NatToString(count)|
  {
    (if IsDigit(name[|name| - 1]) then name[..|name| - 1] else name) + NatToString(count)
  }

  /** The existing folders whose name is at least `n` characters long:
      the measure that bounds the renaming loop once the counter has two
      digits. */
  function LongNames(existing: set<FolderKey>, n: nat): set<FolderKey> {
    set k | k in existing && |k.name| >= n
  }

  lemma LongNamesShrink(existing: set<FolderKey>, k: FolderKey, n: nat)
    requires k in existing && |k.name| < n
    ensures |LongNames(existing, n)| < |LongNames(existing, |k.name|)|
  {
    var small, big := LongNames(existing, n), LongNames(existing, |k.name|);
    var rest := big - {k};
    assert small <= rest;
    assert rest == small + (rest - small) && small * (rest - small) == {};
    assert big == rest + {k} && rest * {k} == {};
  }

  /** The measure of the renaming loop: the counter rises to ten, after
      which every pass makes the name strictly longer, so the set of
      existing names at least that long shrinks. */
  lemma RenamingProgresses(name: string, count: nat, parent: Option<FolderId>, user: UserId,
                           existing: set<FolderKey>)
    requires name != "" && (count > 0 ==> EndsWithDigit(name))
    requires FolderKey(name, parent, user) in existing
    ensures count >= 10 ==>
      |LongNames(existing, |Renamed(name, count + 1)|)| < |LongNames(existing, |name|)|
  {
    if count >= 10 {
      LongNamesShrink(existing, FolderKey(name, parent, user), |Renamed(name, count + 1)|);
    }
  }

  /** The name the renaming loop settles on, from `name` with counter `count`.
      It is free in the folder's scope. */
  function ResolveFrom(name: string, count: nat, parent: Option<FolderId>, user: UserId,
                       existing: set<FolderKey>): (r: string)
    requires name != "" || FolderKey(name, parent, user) !in existing
    requires count > 0 ==> EndsWithDigit(name)
    ensures FolderKey(r, parent, user) !in existing
    decreases (if count < 10 then 10 - count else 0), |LongNames(existing, |name|)|
  {
    if FolderKey(name, parent, user) !in existing then name
    else
      RenamingProgresses(name, count, parent, user, existing);
      ResolveFrom(Renamed(name, count + 1), count + 1, parent, user, existing)
  }

  /** The `k`-th candidate name the loop tries: `name` itself, then one
      renaming pass per counter value 1, 2, ..., k. */
  ghost function Candidate(name: string, k: nat): (r: string)
    requires name != "" || k == 0
    ensures k > 0 ==> EndsWithDigit(r)
  {
    if k == 0 then name else Renamed(Candidate(name, k - 1), k)
  }

  lemma {:induction false} ResolveFromIsFirstFreeCandidate(name: string, c: nat, parent: Option<FolderId>,
                                                           user: UserId, existing: set<FolderKey>)
    returns (k: nat)
    requires c > 0 ==> name != ""
    requires name != "" || FolderKey(name, parent, user) !in existing
    requires forall j :: 0 <= j < c ==> FolderKey(Candidate(name, j), parent, user) in existing
    ensures c <= k && (k > 0 ==> name != "")
    ensures ResolveFrom(Candidate(name, c), c, parent, user, existing) == Candidate(name, k)
    ensures FolderKey(Candidate(name, k), parent, user) !in existing
    ensures forall j :: 0 <= j < k ==> FolderKey(Candidate(name, j), parent, user) in existing
    decreases (if c < 10 then 10 - c else 0), |LongNames(existing, |Candidate(name, c)|)|
  {
    var here := Candidate(name, c);
    if FolderKey(here, parent, user) !in existing {
      k := c;
    } else {
      RenamingProgresses(here, c, parent, user, existing);
      assert Candidate(name, c + 1) == Renamed(here, c + 1);
      k := ResolveFromIsFirstFreeCandidate(name, c + 1, parent, user, existing);
    }
  }

  /** The loop's result is the first candidate not taken in the scope:
      every earlier candidate collides, and this one does not. */
  lemma ResolvedIsFirstFreeCandidate(name: string, parent: Option<FolderId>, user: UserId,
                                     existing: set<FolderKey>)
    returns (k: nat)
    requires name != "" || FolderKey(name, parent, user) !in existing
    ensures k > 0 ==> name != ""
    ensures ResolveFrom(name, 0, parent, user, existing) == Candidate(name, k)
    ensures FolderKey(Candidate(name, k), parent, user) !in existing
    ensures forall j :: 0 <= j < k ==> FolderKey(Candidate(name, j), parent, user) in existing
  {
    k := ResolveFromIsFirstFreeCandidate(name, 0, parent, user, existing);
  }

  /** A colliding `"file1"` is first renamed to `"file1"` again (the digit
      is dropped and the counter 1 appended), then to `"file2"`. */
  lemma CollidingFile1BecomesFile2(parent: Option<FolderId>, user: UserId)
    ensures Candidate("file1", 1) == "file1" && Candidate("file1", 2) == "file2"
    ensures ResolveFrom("file1", 0, parent, user, {FolderKey("file1", parent, user)}) == "file2"
  {
    var e := {FolderKey("file1", parent, user)};
    assert NatToString(1) == "1" && NatToString(2) == "2";
    assert Renamed("file1", 1) == "file1";
    assert Renamed("file1", 2) == "file2";
    assert ResolveFrom("file2", 2, parent, user, e) == "file2";
    assert ResolveFrom("file1", 1, parent, user, e) == "file2";
  }

  /** Creating `"x"` three times in one scope stores `"x"`, `"x1"`, `"x2"`. */
  lemma RepeatedCreationCounts(parent: Option<FolderId>, user: UserId)
    ensures ResolveFrom("x", 0, parent, user, {}) == "x"
    ensures ResolveFrom("x", 0, parent, user, {FolderKey("x", parent, user)}) == "x1"
    ensures ResolveFrom("x", 0, parent, user, {FolderKey("x", parent, user), FolderKey("x1", parent, user)}) == "x2"
  {
    var e1 := {FolderKey("x", parent, user)};
    var e2 := {FolderKey("x", parent, user), FolderKey("x1", parent, user)};
    assert NatToString(1) == "1" && NatToString(2) == "2";
    assert Renamed("x", 1) == "x1" && Renamed("x1", 2) == "x2";
    assert ResolveFrom("x1", 1, parent, user, e1) == "x1";
    assert ResolveFrom("x2", 2, parent, user, e2) == "x2";
    assert ResolveFrom("x1", 1, parent, user, e2) == "x2";
  }

  /** As written, the collision query also sees the folder's own row, so
      saving a stored folder `docs` again, unchanged, renames it `docs1`. */
  lemma ResavedFolderIsRenamed(parent: Option<FolderId>, user: UserId)
    ensures ResolveFrom("docs", 0, parent, user, {FolderKey("docs", parent, user)}) == "docs1"
  {
    var e := {FolderKey("docs", parent, user)};
    assert NatToString(1) == "1";
    assert Renamed("docs", 1) == "docs1";
    assert ResolveFrom("docs1", 1, parent, user, e) == "docs1";
  }

  // ---------------------------------------------------------------------
  // Folder.save: the whole method

  const IndexErrorMessage: string := "string index out of range"

  /** `uuid.uuid4().hex[:8]`: eight lower-case hexadecimal digits. */
  predicate IsHexSuffix(h: string) {
    |h| == 8 && forall i :: 0 <= i < |h| ==> h[i] in "0123456789abcdef"
  }

  /** A folder record being saved. The existing folders (their uniqueness
      triples) and the slugs already in use are what the queries on
      `Folder.objects` see; `slugify` and the random suffix are inputs. */
  class Folder {
    var name: string
    var slug: string
    var user: UserId
    var parent: Option<FolderId>

    constructor (name: string, slug: string, user: UserId, parent: Option<FolderId>)
      ensures this.name == name && this.slug == slug && this.user == user && this.parent == parent
    {
      this.name := name;
      this.slug := slug;
      this.user := user;
      this.parent := parent;
    }

    /** `Folder.save` up to the call that stores the row. */
    method Save(existing: set<FolderKey>, slugs: set<string>, slugify: string -> string, hex: string)
      returns (r: Outcome)
      requires IsHexSuffix(hex)
      modifies this
      ensures user == old(user) && parent == old(parent)
      // the slug is derived from the name as it was before any renaming, and
      // a taken slug gets one random suffix, once, without a second check
      ensures var base := if old(slug) == "" then slugify(old(name)) else old(slug);
        slug == if r.Pass? && base in slugs then base + "-" + hex else base
      // only an empty name that collides fails, at `self.name[-1]`
      ensures r.Fail? <==> old(name) == "" && FolderKey("", parent, user) in existing
      ensures r.Fail? ==> r.message == IndexErrorMessage && name == old(name)
      ensures r.Pass? ==> name == ResolveFrom(old(name), 0, parent, user, existing)
      ensures r.Pass? ==> FolderKey(name, parent, user) !in existing
      ensures FolderKey(old(name), parent, user) !in existing ==> r.Pass? && name == old(name)
    {
      if slug == "" {
        slug := slugify(name);
      }
      var count := 0;
      while FolderKey(name, parent, user) in existing
        invariant user == old(user) && parent == old(parent)
        invariant slug == if old(slug) == "" then slugify(old(name)) else old(slug)
        invariant count > 0 ==> EndsWithDigit(name)
        invariant count == 0 ==> name == old(name)
        invariant name != "" || FolderKey(name, parent, user) !in existing || count == 0
        invariant name != "" || count == 0
        invariant name != "" ==>
          old(name) != "" || FolderKey(old(name), parent, user) !in existing
        invariant name != "" ==>
          ResolveFrom(name, count, parent, user, existing) == ResolveFrom(old(name), 0, parent, user, existing)
        decreases (if count < 10 then 10 - count else 0), |LongNames(existing, |name|)|
      {
        ghost var before := name;
        count := count + 1;
        if name == "" {
          r := Fail(IndexErrorMessage);
          return;
        }
        if IsDigit(name[|name| - 1]) {
          name := name[..|name| - 1];
        }
        name := name + NatToString(count);
        assert name == Renamed(before, count);
        RenamingProgresses(before, count - 1, parent, user, existing);
      }
      if slug in slugs {
        slug := slug + "-" + hex;
      }
      r := Pass;
    }

    /** `Folder.save` as intended when a folder that is already stored, under
        the triple `stored` and the slug `storedSlug`, is saved again (as the
        folder update view does): both queries leave the folder's own row
        out, so an unchanged folder keeps its name and slug, and a renamed
        one collides only with its siblings. */
    method SaveStored(stored: FolderKey, storedSlug: string, existing: set<FolderKey>, slugs: set<string>,
                      slugify: string -> string, hex: string) returns (r: Outcome)
      requires IsHexSuffix(hex)
      modifies this
      ensures user == old(user) && parent == old(parent)
      ensures var base := if old(slug) == "" then slugify(old(name)) else old(slug);
        slug == if r.Pass? && base in slugs - {storedSlug} then base + "-" + hex else base
      ensures r.Fail? <==> old(name) == "" && FolderKey("", parent, user) in existing - {stored}
      ensures r.Fail? ==> r.message == IndexErrorMessage && name == old(name)
      ensures r.Pass? ==> name == ResolveFrom(old(name), 0, parent, user, existing - {stored})
      ensures r.Pass? ==> FolderKey(name, parent, user) !in existing - {stored}
      ensures stored == FolderKey(old(name), old(parent), old(user)) && old(slug) == storedSlug && storedSlug != "" ==>
        r.Pass? && name == old(name) && slug == old(slug)
      // a stored folder keeps its slug, renamed or not
      ensures old(slug) == storedSlug && storedSlug != "" ==> slug == old(slug)
    {
      r := Save(existing - {stored}, slugs - {storedSlug}, slugify, hex);
    }
  }

  /** As written, every save of a stored folder through the update view
      changes its slug: the slug query sees the folder's own slug. Saved
      again unchanged, `docs` becomes `docs1` with slug `docs-<hex>`;
      renamed to `reports`, it keeps that name but still gets the suffix.
      The corrected save keeps the slug `docs` in both cases. */
  method ResavedFolderGetsNewSlug(parent: Option<FolderId>, user: UserId,
                                  slugify: string -> string, hex: string)
    returns (same: Folder, renamed: Folder, kept: Folder)
    requires IsHexSuffix(hex)
    ensures same.name == "docs1" && same.slug == "docs-" + hex
    ensures renamed.name == "reports" && renamed.slug == "docs-" + hex
    ensures kept.name == "reports" && kept.slug == "docs"
  {
    var own := FolderKey("docs", parent, user);
    same := new Folder("docs", "docs", user, parent);
    var r1 := same.Save({own}, {"docs"}, slugify, hex);
    ResavedFolderIsRenamed(parent, user);
    renamed := new Folder("reports", "docs", user, parent);
    var r2 := renamed.Save({own}, {"docs"}, slugify, hex);
    kept := new Folder("reports", "docs", user, parent);
    var r3 := kept.SaveStored(own, "docs", {own}, {"docs"}, slugify, hex);
  }

  // ---------------------------------------------------------------------
  // The stored folder tree and Folder.get_nested_path

  /** A stored folder as the ancestor walks see it. */
  datatype FolderRec = FolderRec(name: string, slug: string, parent: Option<FolderId>)

  /** One element of `get_nested_path`'s result: `{"name": ..., "slug": ...}`. */
  datatype PathEntry = PathEntry(name: string, slug: string)

  /** The stored folders form a forest: every parent reference points to a
      stored folder of strictly smaller rank, so every upward walk ends. */
  ghost predicate Ranked(folders: map<FolderId, FolderRec>, rank: map<FolderId, nat>) {
    && folders.Keys <= rank.Keys
    && forall id {:trigger ParentBelow(folders, rank, id)} :: id in folders ==> ParentBelow(folders, rank, id)
  }

  /** The parent of the stored folder `id`, if it has one, is stored and
      ranked below it. (Stated per folder, so that the solver unfolds it
      one folder at a time rather than up the whole tree.) */
  ghost predicate ParentBelow(folders: map<FolderId, FolderRec>, rank: map<FolderId, nat>, id: FolderId) {
    && id in folders && id in rank
    && (folders[id].parent.Some? ==>
          folders[id].parent.value in folders && folders[id].parent.value in rank &&
          rank[folders[id].parent.value] < rank[id])
  }

  /** The ids from the top-level ancestor of `id` down to `id` itself. */
  ghost function Chain(folders: map<FolderId, FolderRec>, rank: map<FolderId, nat>, id: FolderId)
    : seq<FolderId>
    requires Ranked(folders, rank) && id in folders
    decreases rank[id]
  {
    assert ParentBelow(folders, rank, id);
    match folders[id].parent
    case None => [id]
    case Some(p) => Chain(folders, rank, p) + [id]
  }

  /** How many parent references lead from `id` to a top-level folder. */
  ghost function Depth(folders: map<FolderId, FolderRec>, rank: map<FolderId, nat>, id: FolderId): nat
    requires Ranked(folders, rank) && id in folders
    decreases rank[id]
  {
    assert ParentBelow(folders, rank, id);
    match folders[id].parent
    case None => 0
    case Some(p) => Depth(folders, rank, p) + 1
  }

  /** A sequence of stored ids that starts at a top-level folder, ends at
      `id`, and in which each id is the parent of the next. */
  ghost predicate IsAncestorLine(folders: map<FolderId, FolderRec>, c: seq<FolderId>, id: FolderId) {
    && |c| >= 1
    && (forall i :: 0 <= i < |c| ==> c[i] in folders)
    && c[|c| - 1] == id
    && folders[c[0]].parent.None?
    && (forall i :: 0 <= i < |c| - 1 ==> folders[c[i + 1]].parent == Some(c[i]))
  }

  lemma {:induction false} ChainIsAncestorLine(folders: map<FolderId, FolderRec>, rank: map<FolderId, nat>,
                                                id: FolderId)
    requires Ranked(folders, rank) && id in folders
    ensures IsAncestorLine(folders, Chain(folders, rank, id), id)
    ensures |Chain(folders, rank, id)| == Depth(folders, rank, id) + 1
    decreases rank[id]
  {
    assert ParentBelow(folders, rank, id);
    match folders[id].parent
    case None =>
    case Some(p) =>
      ChainIsAncestorLine(folders, rank, p);
      var c := Chain(folders, rank, p);
      assert Chain(folders, rank, id) == c + [id];
  }

  /** The ancestor line of a folder is unique: any sequence with its shape
      is the chain. */
  lemma {:induction false} AncestorLineIsChain(folders: map<FolderId, FolderRec>, rank: map<FolderId, nat>,
                                               c: seq<FolderId>, id: FolderId)
    requires Ranked(folders, rank) && id in folders
    requires IsAncestorLine(folders, c, id)
    ensures c == Chain(folders, rank, id)
    decreases |c|
  {
    if |c| == 1 {
    } else {
      var p := c[|c| - 2];
      var c' := c[..|c| - 1];
      assert folders[id].parent == Some(p);
      assert IsAncestorLine(folders, c', p) by {
        forall i | 0 <= i < |c'| - 1 ensures folders[c'[i + 1]].parent == Some(c'[i]) {
          assert c'[i + 1] == c[i + 1] && c'[i] == c[i];
        }
      }
      AncestorLineIsChain(folders, rank, c', p);
      assert c == c' + [id];
    }
  }

  /** The `{name, slug}` entry `get_nested_path` builds for a folder. */
  function Entry(f: FolderRec): (e: PathEntry) {
    PathEntry(f.name, f.slug)
  }

  /** The `(name, slug)` entries of the stored folders `ids`, in order. */
  function Entries(folders: map<FolderId, FolderRec>, ids: seq<FolderId>): (path: seq<PathEntry>)
    requires forall i :: 0 <= i < |ids| ==> ids[i] in folders
    ensures |path| == |ids|
    ensures forall i :: 0 <= i < |ids| ==> path[i] == Entry(folders[ids[i]])
  {
    if ids == [] then [] else [Entry(folders[ids[0]])] + Entries(folders, ids[1..])
  }

  lemma EntriesSnoc(folders: map<FolderId, FolderRec>, ids: seq<FolderId>, id: FolderId)
    requires id in folders && forall i :: 0 <= i < |ids| ==> ids[i] in folders
    ensures Entries(folders, ids + [id]) == Entries(folders, ids) + [Entry(folders[id])]
  {
    var l := Entries(folders, ids + [id]);
    var r := Entries(folders, ids) + [Entry(folders[id])];
    forall i | 0 <= i < |l| ensures l[i] == r[i] {
      assert (ids + [id])[i] == if i < |ids| then ids[i] else id;
    }
  }

  /** What `get_nested_path` is meant to return: the parent's nested path
      (none for a top-level folder), then the folder's own entry. */
  ghost function NestedPath(folders: map<FolderId, FolderRec>, rank: map<FolderId, nat>, id: FolderId)
    : (path: seq<PathEntry>)
    requires Ranked(folders, rank) && id in folders
    ensures |path| >= 1 && path[|path| - 1] == Entry(folders[id])
    decreases rank[id]
  {
    assert ParentBelow(folders, rank, id);
    (match folders[id].parent
     case None => []
     case Some(p) => NestedPath(folders, rank, p)) + [Entry(folders[id])]
  }

  /** The nested path is the entries of the ancestor chain, in order. */
  lemma {:induction false} NestedPathIsChainEntries(folders: map<FolderId, FolderRec>, rank: map<FolderId, nat>,
                                                     id: FolderId)
    requires Ranked(folders, rank) && id in folders
    ensures IsAncestorLine(folders, Chain(folders, rank, id), id)
    ensures NestedPath(folders, rank, id) == Entries(folders, Chain(folders, rank, id))
    decreases rank[id]
  {
    ChainIsAncestorLine(folders, rank, id);
    assert ParentBelow(folders, rank, id);
    match folders[id].parent
    case None =>
    case Some(p) =>
      NestedPathIsChainEntries(folders, rank, p);
      var c := Chain(folders, rank, p);
      assert Chain(folders, rank, id) == c + [id];
      EntriesSnoc(folders, c, id);
  }

  /** `get_nested_path` ordered root to self: one entry per folder on the
      ancestor line, the first a top-level folder, each the parent of the
      next, the last the folder itself, depth + 1 of them. */
  lemma NestedPathShape(folders: map<FolderId, FolderRec>, rank: map<FolderId, nat>, id: FolderId)
    requires Ranked(folders, rank) && id in folders
    ensures var path := NestedPath(folders, rank, id);
      && |path| == Depth(folders, rank, id) + 1
      && exists c :: IsAncestorLine(folders, c, id) && |c| == |path| &&
           forall i :: 0 <= i < |c| ==> path[i] == Entry(folders[c[i]])
  {
    ChainIsAncestorLine(folders, rank, id);
    NestedPathIsChainEntries(folders, rank, id);
    var c := Chain(folders, rank, id);
    assert IsAncestorLine(folders, c, id);
  }

  /** `Folder.get_nested_path`: walk the parent references upwards,
      inserting each ancestor's entry at the front. */
  method GetNestedPath(folders: map<FolderId, FolderRec>, ghost rank: map<FolderId, nat>, id: FolderId)
    returns (path: seq<PathEntry>)
    requires Ranked(folders, rank) && id in folders
    ensures path == NestedPath(folders, rank, id)
    ensures |path| >= 1 && path[|path| - 1] == Entry(folders[id])
  {
    var self := folders[id];
    assert ParentBelow(folders, rank, id);
    path := [PathEntry(self.name, self.slug)];
    var parent := self.parent;
    while parent.Some?
      invariant parent.Some? ==> parent.value in folders
      invariant NestedPath(folders, rank, id) ==
        (if parent.Some? then NestedPath(folders, rank, parent.value) else []) + path
      decreases if parent.Some? then rank[parent.value] + 1 else 0
    {
      var pid := parent.value;
      var p := folders[pid];
      assert ParentBelow(folders, rank, pid);
      ghost var above := if p.parent.Some? then NestedPath(folders, rank, p.parent.value) else [];
      var entry := PathEntry(p.name, p.slug);
      assert NestedPath(folders, rank, pid) == above + [entry];
      assert (above + [entry]) + path == above + ([entry] + path);
      path := [entry] + path;
      parent := p.parent;
    }
    assert [] + path == path;
  }
}
