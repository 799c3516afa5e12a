# Upload manager core, modelled in Dafny

This project models the core of a Django upload manager. Users own a tree of
folders and upload image and video files into it. The model covers:

- **Folders** (`folder_model.dfy`).
  - `validate_name`.
  - `Folder.save`. It resolves a colliding name by appending a counter. It
    derives a slug and suffixes a taken slug with eight random hex digits.
  - `Folder.get_nested_path`, which walks the `is_parent` references.
- **Files** (`file_model.dfy`).
  - The two upload validators: the accepted MIME type and the 7 MB / 50 MB
    size limit.
  - `_choose_file_type`.
  - `File.save`, which fills the name, size and type defaults.
  - The best-effort thumbnail methods. Each one records a generated path or
    the shared default, then saves again.
- **Views** (`views.py`, in `views.dfy`).
  - The folder path shown for a search result (`get_folder_path`).
  - The search title.
  - Where a file upload sends the browser.
- **Deletion signal** (`signals.py`, in `signals.dfy`). After a file row is
  deleted, the handler removes the stored file and then its thumbnail. Each
  removal gets up to five attempts while the file is locked.
- **Account forms** (`accounts/forms.py`, in `account_forms.dfy`).
  `clean_password2` and `clean_email`.

Two more files hold shared pieces:

- `common.dfy` has `Option`, `Result` and the pass/fail `Outcome` of a
  validator.
- `pystrings.dfy` has exact models of the Python built-ins the code relies
  on: `str(int)`, `isdigit` (ASCII digits), `startswith`, `join`, `strip`
  (Python's whitespace set), `replace`, and `os.path.basename` / `os.path.join`.

These become parameters of the model:

- the database queries: the set of existing folder triples, the set of
  slugs, and the set of registered e-mail addresses;
- `slugify`;
- the random UUID suffix;
- `mimetypes.guess_type` (a function from file name to optional MIME type);
- whether PIL or moviepy manage to decode the upload;
- what each `os.remove` attempt does.

Stored folders are a map from id to record. Nothing in the schema or the
admin prevents a folder from becoming its own ancestor. The walks up the
parent references are modelled on acyclic data only: a ghost rank map, which
decreases towards the top, is a precondition and proves that every walk ends.

`Folder` and `File` are classes. Their `save` methods update fields in place.
`File.save` and the thumbnail methods call each other, as in the source. The
loops (`Folder.save`'s renaming loop, `get_nested_path`, `get_folder_path` and
the deletion retry loop) are `while`/`for` loops. Each is proved equal to a
recursive specification function, and the properties are proved about that
function.

Some behaviour of the code is easy to misread:

- A file is classified by `mimetypes.guess_type` on its name; its content is
  never read.
- After five `PermissionError`s the retry loop ends quietly, although the
  docstring (signals.py:19-20) only mentions retrying. The `else: raise e`
  belongs to the `try` statement, whose body always leaves by `break`, so
  that clause never runs.
- An error other than `PermissionError` while removing the stored file
  escapes the handler, and the thumbnail is then not removed.
- A colliding folder with an empty name ends in `IndexError` at `name[-1]`.
  The model gives it a `Fail` outcome rather than a precondition.
- `_choose_file_type` stores `"image"`/`"video"`, although the field's
  declared choices are `img`/`vid`. Choices are not enforced on `save`, so
  the model stores what the code stores.

## Model

| member | source | states |
|---|---|---|
| `FolderModel.AnyCharIn` | uploadmanager/models.py:26 | the `any(...)` test is true exactly when some character of the list occurs in the value |
| `FolderModel.ValidateName` | uploadmanager/models.py:24-29 | a rejection always carries the fixed invalid-characters message |
| `FolderModel.ValidateNameRejectsExactly` | uploadmanager/models.py:24-29 | a name passes exactly when it contains none of the fourteen characters of the validator's list, the pipe and both brackets included |
| `FolderModel.Renamed` | uploadmanager/models.py:53-56 | one renaming pass ends in a digit and changes the length by the counter's digits minus a dropped trailing digit |
| `FolderModel.ResolveFrom` | uploadmanager/models.py:49-56 | the renaming loop terminates, and its name is free among the folder's siblings of the same owner |
| `FolderModel.ResolvedIsFirstFreeCandidate` | uploadmanager/models.py:49-56 | the chosen name is the first candidate (name, then one pass per counter 1, 2, ...) not taken, and every earlier candidate is taken |
| `FolderModel.CollidingFile1BecomesFile2` | uploadmanager/models.py:53-56 | a colliding `file1` is retried as `file1` and settles on `file2` |
| `FolderModel.RepeatedCreationCounts` | uploadmanager/models.py:49-56 | creating `x` three times in one scope stores `x`, `x1`, `x2` |
| `FolderModel.ResavedFolderIsRenamed` | uploadmanager/models.py:49-52 | as written, re-saving a stored folder `docs` unchanged renames it `docs1`, because the query sees its own row |
| `FolderModel.ResavedFolderGetsNewSlug` | uploadmanager/models.py:43-60 | as written, a stored folder `docs` with slug `docs` saved again unchanged becomes `docs1` with slug `docs-<hex>`, and renamed to `reports` it keeps that name but still gets slug `docs-<hex>`; the corrected save keeps slug `docs` |
| `FolderModel.Folder.Save` | uploadmanager/models.py:43-62 | owner and parent unchanged; the slug is the old slug or `slugify(name)` before renaming, suffixed `-<8 hex>` once when taken; fails with `IndexError` iff the name is empty and collides; otherwise the name is the loop's first free candidate, and unchanged when there is no collision |
| `FolderModel.Folder.SaveStored` | uploadmanager/models.py:43-62 | the corrected save of a stored folder, which leaves its own row out of both queries: owner and parent unchanged; the slug is the old one or `slugify(name)`, suffixed once when another folder holds it, so a stored folder keeps its slug even when renamed; fails only for an empty name colliding with a sibling, leaving the name; otherwise the name is the first free candidate among the other siblings, and an unchanged folder keeps its name and slug |
| `FolderModel.ChainIsAncestorLine` | uploadmanager/models.py:64-73 | the ancestor chain starts at a top-level folder, ends at the folder, links each parent to its child, and has depth + 1 entries |
| `FolderModel.AncestorLineIsChain` | uploadmanager/models.py:64-73 | any sequence with that shape is the chain, so the ancestor line is unique |
| `FolderModel.Entries` | uploadmanager/models.py:66-70 | one `{name, slug}` entry per id, in the same order |
| `FolderModel.NestedPath` | uploadmanager/models.py:64-73 | the nested path is never empty and ends with the folder's own entry |
| `FolderModel.NestedPathIsChainEntries` | uploadmanager/models.py:64-73 | the nested path is exactly the entries of the ancestor chain, and that chain is an ancestor line |
| `FolderModel.NestedPathShape` | uploadmanager/models.py:64-73 | the nested path has depth + 1 entries, which are those of an ancestor line, top-level folder first |
| `FolderModel.GetNestedPath` | uploadmanager/models.py:64-73 | the loop that inserts each ancestor at the front returns exactly the nested path, ending with the folder's own entry |
| `FileModel.ValidateFileType` | uploadmanager/models.py:79-89 | passes exactly when a type is guessed and it is one of the listed types; a rejection always carries the unsupported-type message |
| `FileModel.ValidMimeTypesCount` | uploadmanager/models.py:80-84 | the list holds fifteen distinct types |
| `FileModel.ValidMimeTypesPartition` | uploadmanager/models.py:80-84 | every accepted MIME type is an image type or a video type, never both |
| `FileModel.ValidateFileSize` | uploadmanager/models.py:92-102 | passes iff the size is at most 7\*1024\*1024 bytes for a guessed `image*` type and 50\*1024\*1024 otherwise (unknown type included); the message names 7 or 50 MB |
| `FileModel.ChooseFileType` | uploadmanager/models.py:134-138 | an error "Invalid file" iff no type or the empty string is guessed (`if mime_type:`); otherwise `image` exactly for `image*` types and `video` for every other type |
| `FileModel.AcceptedTypeIsClassified` | uploadmanager/models.py:134-152 | a file that passed type validation gets a stored type, that type matches the thumbnail branch taken, and a thumbnail is always made |
| `FileModel.OtherTypeIsVideoWithoutThumbnail` | uploadmanager/models.py:134-152 | a guessed type such as `application/pdf` is rejected by the validator, yet stored as `video` with no thumbnail when saved |
| `FileModel.StoredThumbnailPath` | uploadmanager/models.py:159-162 | joining `media/thumbnails` with a base name and removing `media/` gives `thumbnails/<base name>` |
| `FileModel.ImageThumbnailPath` | uploadmanager/models.py:159-162 | the path a working image decoder records is `thumbnails/<base name>` |
| `FileModel.VideoThumbnailPath` | uploadmanager/models.py:169-179 | the path a working video decoder records is `thumbnails/<base name>.jpg` |
| `FileModel.ThumbnailFor` | uploadmanager/models.py:145-185 | a thumbnail is made exactly for image and video types; `None` means the field is left as it was |
| `FileModel.ThumbnailOutcomes` | uploadmanager/models.py:154-185 | a made thumbnail is never empty; a failed decode always records the shared default; a successful one records a path under `thumbnails/` that is never the default |
| `FileModel.DefaultName` | uploadmanager/models.py:125 | a blank name is replaced by the longest slash-free suffix of the stored file's name, i.e. its base name: the character before that suffix, if any, is a `/`; any other name is kept |
| `FileModel.DefaultSize` | uploadmanager/models.py:126 | a missing or zero size is replaced by the stored file's size; any other size is kept |
| `FileModel.File.FillDefaults` | uploadmanager/models.py:124-127 | a blank name becomes the stored file's base name; a missing or zero size becomes the file's size; a blank type is chosen, and this fails, leaving type and thumbnail as they were, exactly when that choice fails; afterwards saving again changes none of the three |
| `FileModel.File.Save` | uploadmanager/models.py:124-132 | a blank name becomes the stored file's base name; a missing or zero size becomes the file's size; a blank type is chosen, and saving fails only when that choice fails; a blank thumbnail is then filled by the thumbnail step, and an existing one is kept |
| `FileModel.File.CreateThumbnail` | uploadmanager/models.py:145-152 | an image type gets the image thumbnail, a video type the video thumbnail, and any other type leaves the field as it was; name, size and type do not change |
| `FileModel.File.CreateImageThumbnail` | uploadmanager/models.py:154-167 | the thumbnail becomes `thumbnails/<base name>`, or the default when decoding fails; the nested save changes nothing else |
| `FileModel.File.CreateVideoThumbnail` | uploadmanager/models.py:169-185 | the thumbnail becomes `thumbnails/<base name>.jpg`, or the default when decoding fails; the nested save changes nothing else |
| `FileModel.File.RecordThumbnail` | uploadmanager/models.py:162-167 | recording a thumbnail path and saving again sets the thumbnail to that path and keeps name, size and type, because the repeated save finds the defaults already in place |
| `FileModel.UploadedPhotoIsImageWithThumbnail` | uploadmanager/models.py:124-162 | a 2 MiB `photo.png` passes both validators, is stored as an image, and gets thumbnail `thumbnails/photo.png` |
| `PyStrings.NatToString` | uploadmanager/models.py:56 | `str(count)` is a non-empty string of decimal digits with no leading zero; it has two or more digits iff the count is at least 10 |
| `PyStrings.NatToStringInjective` | uploadmanager/models.py:56 | distinct counters give distinct suffixes |
| `PyStrings.BasenameOfJoined` | uploadmanager/models.py:125 | the base name of `dir/b` is `b` when `b` has no slash |
| `PyStrings.StripIsTrim` | uploadmanager/views.py:379 | the stripped query is the slice of the input between its leading and trailing whitespace, and starts and ends with a non-space |
| `PyStrings.StripEmptyIffBlank` | uploadmanager/views.py:379 | the stripped query is empty exactly when the input is all whitespace |
| `Views.GetFolderPath` | uploadmanager/views.py:418-442 | `Home` for no folder; otherwise the names walked up from the folder, joined by ` / `, stopping at an empty-named ancestor; a top-level folder gives its own name |
| `Views.PartsAbove` | uploadmanager/views.py:432-440 | no folder gives no names; a folder with an empty name stops the walk and gives none; otherwise the names end with that folder's own name |
| `Views.PathParts` | uploadmanager/views.py:432-440 | the segments always end with the folder's own name |
| `Views.PartsAboveIsSuffix` | uploadmanager/views.py:436-440 | the kept ancestor names are the tail of the ancestor line below the nearest empty-named ancestor, and none of them is empty |
| `Views.FolderPathIsNestedPathSuffix` | uploadmanager/views.py:436-442 | the folder path is a suffix of the nested path's names, ending with the folder's own name; exactly the entries above an empty-named ancestor are dropped |
| `Views.FolderPathMatchesNestedPath` | uploadmanager/views.py:418-442 | with no empty name on the ancestor line, the folder path lists exactly the names of the nested path, in order |
| `Views.SearchQuery` | uploadmanager/views.py:379 | the stripped query is never longer than what was sent, and a missing parameter counts as the empty string |
| `Views.SearchTitle` | uploadmanager/views.py:400 | the title quotes the stripped query, or is the bare title when that query is empty |
| `Views.SearchTitleCases` | uploadmanager/views.py:379-400 | the bare title appears iff no query was sent or it is all whitespace |
| `Views.SearchQueryIsSlice` | uploadmanager/views.py:379 | a non-empty query starts and ends with a non-space and is a slice of what was sent |
| `Views.UploadResponse` | uploadmanager/views.py:91-100 | not found iff a non-empty slug names no folder; a redirect iff the form is valid and the folder exists, to `/folder/<slug>/` or `/` without a folder; otherwise the form is shown again for the same folder |
| `Views.FolderUrl` | uploadmanager/views.py:100 | the redirect target starts with `/folder/` and ends with `/` |
| `Views.FolderUrlRoundTrip` | uploadmanager/views.py:100 | the slug can be read back from the redirect, which is never `/` |
| `Views.FolderUrlInjective` | uploadmanager/views.py:100 | distinct folders redirect to distinct pages |
| `Signals.RetryFrom` | uploadmanager/signals.py:25-33 | from attempt `i`, the loop makes at least one more attempt and at most five in all, and removes at most its one path |
| `Signals.RemoveWithRetry` | uploadmanager/signals.py:24-33 | the `for` loop with `break` computes exactly the retry specification |
| `Signals.RetryFacts` | uploadmanager/signals.py:25-33 | one to five attempts, every attempt but the last refused; only the one path can disappear, only by a successful remove; an escaping error leaves the disk unchanged; a quiet end with the file still present means five refusals |
| `Signals.StopsAtFirstUnrefused` | uploadmanager/signals.py:25-33 | the loop stops at the first attempt not refused with `PermissionError`, after exactly that many attempts |
| `Signals.ExhaustedRetriesEndQuietly` | uploadmanager/signals.py:25-33 | five `PermissionError`s end the loop with no error and the file still on disk |
| `Signals.MissingFileTakesOneAttempt` | uploadmanager/signals.py:27-29 | a missing file takes one attempt, no remove and no error |
| `Signals.RemovedOnThirdAttempt` | uploadmanager/signals.py:25-33 | a file locked twice and then removed takes three attempts and is gone |
| `Signals.CleanupOf` | uploadmanager/signals.py:22-46 | the handler never adds a file to the disk; the file step runs exactly when there is a file, and the thumbnail step only when there is a thumbnail |
| `Signals.DeleteFileOnModelDelete` | uploadmanager/signals.py:22-46 | the handler computes exactly the specified cleanup: the file step when there is a file, then the thumbnail step unless the file step raised |
| `Signals.CleanupFacts` | uploadmanager/signals.py:22-46 | only the record's two paths can disappear; the thumbnail step runs iff there is a thumbnail and the file step raised nothing; an escaping error is the last remove's error of the step that raised it |
| `Signals.FileErrorSkipsThumbnail` | uploadmanager/signals.py:22-46 | a non-permission error on the file escapes and leaves both paths on disk |
| `Signals.CleanDeleteRemovesBoth` | uploadmanager/signals.py:22-46 | two successful removes leave neither path and raise nothing |
| `Signals.DeletingOneRecordRemovesSharedDefault` | uploadmanager/signals.py:35-46 | as written, deleting one record whose thumbnail is the shared default removes that shared file from disk |
| `Signals.CleanupSparingDefault` | uploadmanager/signals.py:35-46 | the corrected handler leaves the shared default thumbnail on disk and otherwise removes exactly what the handler removes |
| `AccountForms.CleanPassword2` | accounts/forms.py:23-31 | an error iff both passwords are non-empty and differ; otherwise the confirmation is returned unchanged, `None` included |
| `AccountForms.PasswordCheckIsSymmetric` | accounts/forms.py:29 | swapping the two passwords does not change whether the pair is rejected |
| `AccountForms.PasswordCheckIsEquality` | accounts/forms.py:27-31 | for two non-empty passwords the check is exactly equality |
| `AccountForms.CleanEmail` | accounts/forms.py:71-79 | an error iff the address is registered; otherwise the address is returned unchanged |
| `AccountForms.RegisteredEmailStaysTaken` | accounts/forms.py:75-78 | once registered, an address is rejected against every larger set of users; an accepted address is accepted against every smaller one |

## Findings

| source | as written | input that shows it | evidently intended | confidence | as-written member | corrected member |
|---|---|---|---|---|---|---|
| uploadmanager/models.py:49-60 | Both the name query and the slug query include the row being saved. On an existing folder (the folder update view saves one again), the folder collides with itself. | A stored folder `docs` with slug `docs`, saved again unchanged, becomes `docs1` with slug `docs-<8 hex>`; renamed to `reports`, it keeps the new name but still gets slug `docs-<8 hex>`. So every save through the update view changes the slug. | Leave the folder's own row out of both queries (`.exclude(pk=self.pk)`). An unchanged folder then keeps its name and slug. | medium; not executed | `FolderModel.ResavedFolderGetsNewSlug` | `FolderModel.Folder.SaveStored` |
| uploadmanager/signals.py:35-46 | The thumbnail step removes whatever file the record's thumbnail names. A record whose thumbnail could not be generated names the one shared `default_thumbnail.jpg` (models.py:166, 184), which every such record uses. | Two uploads whose decoding failed both record `default_thumbnail.jpg`; deleting the first removes that file, and the second record's thumbnail then points at nothing. | Skip the removal when the thumbnail is the shared default. | medium; not executed | `Signals.DeletingOneRecordRemovesSharedDefault` | `Signals.CleanupSparingDefault` |

## Left out

- HTTP requests, templates, messages, the login mixins and the views not named above are not modelled. Only the upload view's outcome is, not the page that renders the form again with errors.
- The ORM queries and persistence are inputs. The existing folder triples, the slugs in use and the registered addresses are sets. `super().save()` and database uniqueness errors (`IntegrityError`) are not modelled.
- Views.UploadResponse: a valid form always leads to the redirect. The upload form lists only `file` and `folder`, so its validation skips the `("name", "folder", "user")` uniqueness check; a second upload of the same name into the same folder passes `is_valid()`, and `super().save()` then fails with `IntegrityError` instead of redirecting. That failure is not modelled.
- The race between two concurrent saves that pass the name check together is not modelled.
- `slugify`, `uuid.uuid4().hex[:8]` and `mimetypes.guess_type` are parameters. The model does not compute them.
- PIL and moviepy decoding, resizing and writing the thumbnail image are reduced to one flag: whether they succeed. A failure of the nested `save()` inside the `try`, which also leads to the default thumbnail, is not modelled separately.
- The logging calls have no effect the model can observe, so they are left out.
- FileModel.File.Save: the model assumes `os.makedirs(THUMBNAIL_FOLDER)` (models.py:146) succeeds. That call runs outside the `try` blocks, before the type dispatch. If it fails (a `PermissionError`, or `FileExistsError` when `media/thumbnails` is a plain file), the error escapes `File.save` after `super().save()` has stored the row, for every type, and no thumbnail is set. That error path is not modelled, so the promise that a saved image or video always gets a thumbnail holds only when the directory can be made.
- `time.sleep(0.1)` between deletion attempts is left out. Nothing else changes the disk between attempts.
- `get_file_size_in_mb` is left out, since it works in floating point.
- The storage layer renames an upload on commit (`files/` prefix, collision suffixes). This is not modelled. The stored file name is an input of `File`.
- `str.isdigit` is modelled for ASCII digits only. Python also accepts other Unicode digits, such as superscripts.
- Whether the thumbnail file `thumbnails/<name>` really exists on disk is left to the decoder flag.
- The upload response takes a valid form to mean a successful `File.save`. The type choice cannot fail then, because a validated type always has a guess; the uniqueness failure above is the exception.
- The walks up the parent references (`get_nested_path`, `get_folder_path`) assume acyclic folder data. On a cycle, which the schema and the admin allow, the source loops forever (`get_folder_path` stops only at an empty-named ancestor); the model does not describe that case.
- `CustomUserCreationForm.save`, the admin, URLs, app config and the user manager are not part of this model. They are password hashing, persistence and configuration.
