/** Uploaded files (uploadmanager/models.py): the two upload validators,
    the choice of the stored type, and `File.save` with its defaults and
    best-effort thumbnail.

    Every classification goes through `mimetypes.guess_type(name)`, a guess
    from the file name's extension; it is the parameter `guess`. Whether the
    image or video decoder (and the thumbnail write) succeeds is the
    parameter `decodes`. */
module FileModel {
  import opened Common
  import opened PyStrings

  const DefaultThumbnailPath: string := "default_thumbnail.jpg"
  const ThumbnailFolder: string := "media/thumbnails"

  const UnsupportedTypeMessage: string :=
    "Unsupported file type. Only videos and images are supported."
  const InvalidFileMessage: string := "Invalid file"

  /** The MIME types `validate_file_type` accepts. */
  const ValidMimeTypes: set<string> := {
    "image/jpeg", "image/jpg", "image/png", "image/gif", "image/bmp", "image/tiff",
    "video/mp4", "video/mkv", "video/wmv", "video/mov", "video/avi", "video/mpeg",
    "video/quicktime", "video/x-msvideo", "video/x-ms-wmv"
  }

  /** `mime_type and mime_type.startswith("image")`. */
  predicate IsImage(mime: Option<string>) {
    mime.Some? && StartsWith(mime.value, "image")
  }

  /** `mime_type and mime_type.startswith("video")`. */
  predicate IsVideo(mime: Option<string>) {
    mime.Some? && StartsWith(mime.value, "video")
  }

  // ---------------------------------------------------------------------
  // Validators

  /** `validate_file_type`: the guessed type must be one of the listed ones;
      a name whose type cannot be guessed is rejected. */
  function ValidateFileType(fileName: string, guess: string -> Option<string>): (r: Outcome)
    ensures r.Pass? <==> guess(fileName).Some? && guess(fileName).value in ValidMimeTypes
    ensures r.Fail? ==> r.message == UnsupportedTypeMessage
  {
    match guess(fileName)
    case None => Fail(UnsupportedTypeMessage)
    case Some(mime) => if mime in ValidMimeTypes then Pass else Fail(UnsupportedTypeMessage)
  }

  /** `validate_file_size`: 7 MB for anything guessed as an image, 50 MB for
      everything else, unknown types included; a size equal to the limit
      passes. */
  function ValidateFileSize(fileName: string, size: int, guess: string -> Option<string>): (r: Outcome)
    ensures r.Pass? <==> size <= (if IsImage(guess(fileName)) then 7340032 else 52428800)
    ensures r.Fail? ==>
      r.message == "File size exceeds the maximum limit of " + (if IsImage(guess(fileName)) then "7" else "50") + " MB."
  {
    var mime := guess(fileName);
    var maxSizeMb: nat := if mime.Some? && StartsWith(mime.value, "image") then 7 else 50;
    var maxSizeBytes := maxSizeMb * 1024 * 1024;
    assert NatToString(7) == "7" && NatToString(50) == "50";
    if size > maxSizeBytes then
      Fail("File size exceeds the maximum limit of " + NatToString(maxSizeMb) + " MB.")
    else Pass
  }

  /** The list holds fifteen distinct types. */
  lemma ValidMimeTypesCount()
    ensures |ValidMimeTypes| == 15
  {
  }

  /** Every accepted type is an image type or a video type, never both. */
  lemma ValidMimeTypesPartition()
    ensures forall m :: m in ValidMimeTypes ==> (IsImage(Some(m)) <==> !IsVideo(Some(m)))
  {
    forall m | m in ValidMimeTypes ensures IsImage(Some(m)) <==> !IsVideo(Some(m)) {
      assert m[..5] == "image" || m[..5] == "video";
      if StartsWith(m, "video") { StartsWithFirst(m, "video"); }
      if StartsWith(m, "image") { StartsWithFirst(m, "image"); }
    }
  }

  // ---------------------------------------------------------------------
  // _choose_file_type

  /** `_choose_file_type`: `"image"` for an `image*` type, `"video"` for any
      other guessed type, and an error when nothing (or the empty string) is
      guessed. */
  function ChooseFileType(fileName: string, guess: string -> Option<string>): (r: Result<string, string>)
    ensures r.Err? <==> Blank(guess(fileName))
    ensures r.Err? ==> r.error == InvalidFileMessage
    ensures r.Ok? ==> (r.value == "image" <==> IsImage(guess(fileName)))
    ensures r.Ok? ==> r.value in {"image", "video"}
  {
    var mime := guess(fileName);
    if mime.Some? && mime.value != "" then Ok(if StartsWith(mime.value, "image") then "image" else "video")
    else Err(InvalidFileMessage)
  }

  /** A file that passed `validate_file_type` gets a stored type, and that
      type agrees with the thumbnail branch taken: an image gets the image
      thumbnail, every other accepted type is a video. */
  lemma AcceptedTypeIsClassified(fileName: string, guess: string -> Option<string>)
    requires ValidateFileType(fileName, guess).Pass?
    ensures ChooseFileType(fileName, guess).Ok?
    ensures ChooseFileType(fileName, guess).value == "image" <==> IsImage(guess(fileName))
    ensures ChooseFileType(fileName, guess).value == "video" <==> IsVideo(guess(fileName))
    ensures ThumbnailFor(fileName, guess(fileName), true).Some?
  {
    ValidMimeTypesPartition();
  }

  /** Outside the validated types the two disagree: a guessed type that is
      neither image nor video (say `application/pdf`) is stored as
      `"video"`, yet no thumbnail is made for it. */
  lemma OtherTypeIsVideoWithoutThumbnail(fileName: string, guess: string -> Option<string>)
    requires guess(fileName) == Some("application/pdf")
    ensures ValidateFileType(fileName, guess).Fail?
    ensures ChooseFileType(fileName, guess) == Ok("video")
    ensures ThumbnailFor(fileName, guess(fileName), true).None?
  {
    var mime := "application/pdf";
    if StartsWith(mime, "image") { StartsWithFirst(mime, "image"); }
    if StartsWith(mime, "video") { StartsWithFirst(mime, "video"); }
    ValidMimeTypesPartition();
  }

  // ---------------------------------------------------------------------
  // Thumbnail paths

  /** The stored thumbnail path for a thumbnail file named `b` (no `/` in
      it): `os.path.join(THUMBNAIL_FOLDER, b).replace("media/", "")` is
      `"thumbnails/" + b`. */
  lemma {:induction false} StoredThumbnailPath(b: string)
    requires '/' !in b
    ensures Replace(PathJoin(ThumbnailFolder, b), "media/", "") == "thumbnails/" + b
  {
    var t := "thumbnails/" + b;
    var full := PathJoin(ThumbnailFolder, b);
    assert |b| > 0 ==> b[0] != '/' by {
      if |b| > 0 { assert b[0] in b; }
    }
    assert full == "media/" + t;
    assert full[..6] == "media/" && full[6..] == t;
    assert Replace(full, "media/", "") == "" + Replace(t, "media/", "");
    ThumbnailsHoldsNoMedia(b);
    ReplaceAbsent(t, "media/", "");
  }

  /** `media/` does not occur in `thumbnails/` followed by a name without a
      slash: every candidate position lacks the slash that would end it. */
  lemma ThumbnailsHoldsNoMedia(b: string)
    requires '/' !in b
    ensures var t := "thumbnails/" + b;
      forall i :: 0 <= i < |t| ==> !OccursAt(t, "media/", i)
  {
    var t := "thumbnails/" + b;
    forall i | 0 <= i < |t| ensures !OccursAt(t, "media/", i) {
      if i + 6 <= |t| {
        if i == 5 {
          assert t[5] == 'n';
          assert t[i..i + 6][0] == t[5];
        } else {
          if i + 5 >= 11 {
            assert t[i + 5] == b[i + 5 - 11] && b[i + 5 - 11] in b;
          } else {
            assert t[i + 5] == "thumbnails"[i + 5];
          }
          assert t[i..i + 6][5] == t[i + 5];
        }
      }
    }
  }

  /** The path `_create_image_thumbnail` records for a working decoder:
      the thumbnail file keeps the stored file's base name. */
  function ImageThumbnailPath(fileName: string): (t: string)
    ensures t == "thumbnails/" + Basename(fileName)
  {
    StoredThumbnailPath(Basename(fileName));
    Replace(PathJoin(ThumbnailFolder, Basename(fileName)), "media/", "")
  }

  /** The path `_create_video_thumbnail` records for a working decoder:
      the stored file's base name with `.jpg` appended. */
  function VideoThumbnailPath(fileName: string): (t: string)
    ensures t == "thumbnails/" + Basename(fileName) + ".jpg"
  {
    var b := Basename(fileName);
    var v := b + ".jpg";
    assert '/' !in v by {
      forall i | 0 <= i < |v| ensures v[i] != '/' {
        if i < |b| {
          assert v[i] == b[i] && b[i] in b;
        }
      }
    }
    StoredThumbnailPath(v);
    ConcatAssoc("thumbnails/", b, ".jpg");
    Replace(PathJoin(ThumbnailFolder, v), "media/", "")
  }

  /** A path under `thumbnails/` is never blank and never the default: its
      first character is `t`, the default's is `d`. */
  lemma UnderThumbnails(v: string)
    ensures var t := "thumbnails/" + v;
      |t| >= 11 && t[0] == 't' && StartsWith(t, "thumbnails/") && t != DefaultThumbnailPath
  {
    var t := "thumbnails/" + v;
    assert t[..11] == "thumbnails/";
    assert t[0] == 't' && DefaultThumbnailPath[0] == 'd';
  }

  /** Where `_create_thumbnail` leaves the thumbnail. `None` means it leaves
      the field as it was; that happens exactly when the type is neither
      image nor video. */
  function ThumbnailFor(fileName: string, mime: Option<string>, decodes: bool): (t: Option<string>)
    ensures t.Some? <==> IsImage(mime) || IsVideo(mime)
  {
    if IsImage(mime) then
      Some(if decodes then "thumbnails/" + Basename(fileName) else DefaultThumbnailPath)
    else if IsVideo(mime) then
      Some(if decodes then "thumbnails/" + Basename(fileName) + ".jpg" else DefaultThumbnailPath)
    else None
  }

  /** A thumbnail that is made is never blank: a failing decoder always
      gives the default thumbnail, whatever the type, and a working one a
      path under `thumbnails/` that is never the default. */
  lemma ThumbnailOutcomes(fileName: string, mime: Option<string>, decodes: bool)
    requires IsImage(mime) || IsVideo(mime)
    ensures ThumbnailFor(fileName, mime, decodes).value != ""
    ensures !decodes ==> ThumbnailFor(fileName, mime, decodes).value == DefaultThumbnailPath
    ensures decodes ==> StartsWith(ThumbnailFor(fileName, mime, decodes).value, "thumbnails/")
    ensures decodes ==> ThumbnailFor(fileName, mime, decodes).value != DefaultThumbnailPath
  {
    var t := ThumbnailFor(fileName, mime, decodes).value;
    var b := Basename(fileName);
    if !decodes {
      assert t == DefaultThumbnailPath;
      assert |DefaultThumbnailPath| == 21;
    } else if IsImage(mime) {
      assert t == "thumbnails/" + b;
      UnderThumbnails(b);
      assert |t| >= 11 && t[0] == 't';
    } else {
      var v := b + ".jpg";
      assert t == "thumbnails/" + b + ".jpg";
      ConcatAssoc("thumbnails/", b, ".jpg");
      UnderThumbnails(v);
      assert |t| >= 11 && t[0] == 't';
    }
  }

  // ---------------------------------------------------------------------
  // The File record

  /** `self.name or os.path.basename(self.file.name)`: a blank name is
      replaced by the stored file's base name, the longest suffix of the
      stored name with no `/` in it. */
  function DefaultName(name: Option<string>, fileName: string): (r: Option<string>)
    ensures r.Some?
    ensures !Blank(name) ==> r == name
    ensures Blank(name) ==>
      '/' !in r.value && |r.value| <= |fileName| && r.value == fileName[|fileName| - |r.value|..]
    ensures Blank(name) ==> (|r.value| < |fileName| ==> fileName[|fileName| - |r.value| - 1] == '/')
  {
    if Blank(name) then Some(Basename(fileName)) else name
  }

  /** `self.size or self.file.size`: `None` and `0` are both replaced by the
      stored file's size; any other size is kept. */
  function DefaultSize(size: Option<int>, fileSize: nat): (r: Option<int>)
    ensures r.Some?
    ensures size.Some? && size.value != 0 ==> r == size
    ensures size.None? || size.value == 0 ==> r == Some(fileSize)
  {
    if size.None? || size.value == 0 then Some(fileSize) else size
  }

  /** A `File` row. `fileName` and `fileSize` are the stored file's name
      and size; the other fields are the model's columns (`type` is
      `fileType`). */
  class File {
    const fileName: string
    const fileSize: nat
    var name: Option<string>
    var size: Option<int>
    var fileType: string
    var thumbnail: Option<string>

    constructor (fileName: string, fileSize: nat, name: Option<string>, size: Option<int>,
                 fileType: string, thumbnail: Option<string>)
      ensures this.fileName == fileName && this.fileSize == fileSize
      ensures this.name == name && this.size == size
      ensures this.fileType == fileType && this.thumbnail == thumbnail
    {
      this.fileName := fileName;
      this.fileSize := fileSize;
      this.name := name;
      this.size := size;
      this.fileType := fileType;
      this.thumbnail := thumbnail;
    }

    /** Name, size and type are all set, so saving again changes none of them. */
    ghost predicate DefaultsApplied()
      reads this
    {
      name == DefaultName(name, fileName) && size == DefaultSize(size, fileSize) && fileType != ""
    }

    /** The first half of `File.save`: fill a blank name, size and type, in
        that order; choosing the type can fail, and then the row is not
        stored. */
    method FillDefaults(guess: string -> Option<string>) returns (r: Outcome)
      modifies this
      ensures name == DefaultName(old(name), fileName)
      ensures size == DefaultSize(old(size), fileSize)
      ensures thumbnail == old(thumbnail)
      ensures r.Fail? <==> old(fileType) == "" && ChooseFileType(fileName, guess).Err?
      ensures r.Fail? ==> r.message == InvalidFileMessage && fileType == old(fileType)
      ensures r.Pass? ==> DefaultsApplied()
      ensures r.Pass? ==>
        fileType == if old(fileType) == "" then ChooseFileType(fileName, guess).value else old(fileType)
    {
      name := DefaultName(name, fileName);
      size := DefaultSize(size, fileSize);
      r := Pass;
      if fileType == "" {
        var chosen := ChooseFileType(fileName, guess);
        if chosen.Err? {
          return Fail(chosen.error);
        }
        fileType := chosen.value;
      }
    }

    /** `File.save`: fill the defaults, store the row, then make a thumbnail
        when there is none. Making the thumbnail saves the record again. */
    method Save(guess: string -> Option<string>, decodes: bool) returns (r: Outcome)
      modifies this
      decreases if Blank(thumbnail) then 1 else 0, 3
      ensures name == DefaultName(old(name), fileName)
      ensures size == DefaultSize(old(size), fileSize)
      ensures r.Fail? <==> old(fileType) == "" && ChooseFileType(fileName, guess).Err?
      ensures r.Fail? ==> r.message == InvalidFileMessage
      ensures r.Fail? ==> fileType == old(fileType) && thumbnail == old(thumbnail)
      ensures r.Pass? ==>
        fileType == if old(fileType) == "" then ChooseFileType(fileName, guess).value else old(fileType)
      ensures r.Pass? ==>
        thumbnail == if Blank(old(thumbnail)) && ThumbnailFor(fileName, guess(fileName), decodes).Some?
                     then ThumbnailFor(fileName, guess(fileName), decodes)
                     else old(thumbnail)
    {
      r := FillDefaults(guess);
      if r.Fail? {
        return;
      }
      // super().save() stores the row; the table is not modelled here
      if Blank(thumbnail) {
        CreateThumbnail(guess, decodes);
      }
    }

    /** `_create_thumbnail`: dispatch on the guessed type; a type that is
        neither image nor video gets no thumbnail. */
    method CreateThumbnail(guess: string -> Option<string>, decodes: bool)
      requires DefaultsApplied() && Blank(thumbnail)
      modifies this
      decreases 1, 2
      ensures name == old(name) && size == old(size) && fileType == old(fileType)
      ensures thumbnail ==
        if ThumbnailFor(fileName, guess(fileName), decodes).Some?
        then ThumbnailFor(fileName, guess(fileName), decodes)
        else old(thumbnail)
    {
      // os.makedirs(THUMBNAIL_FOLDER, exist_ok=True) touches only the disk
      var mime := guess(fileName);
      if mime.Some? && StartsWith(mime.value, "image") {
        CreateImageThumbnail(guess, decodes);
      } else if mime.Some? && StartsWith(mime.value, "video") {
        CreateVideoThumbnail(guess, decodes);
      }
    }

    /** `_create_image_thumbnail`: the thumbnail file is named after the
        stored file; any failure records the default thumbnail instead. */
    method CreateImageThumbnail(guess: string -> Option<string>, decodes: bool)
      requires DefaultsApplied() && Blank(thumbnail)
      modifies this
      decreases 1, 1
      ensures name == old(name) && size == old(size) && fileType == old(fileType)
      ensures thumbnail ==
        Some(if decodes then "thumbnails/" + Basename(fileName) else DefaultThumbnailPath)
    {
      if decodes {
        // Image.open, thumbnail((100, 100), LANCZOS) and image.save succeed
        var path := ImageThumbnailPath(fileName);
        UnderThumbnails(Basename(fileName));
        RecordThumbnail(path, guess, decodes);
      } else {
        // the error is logged and the default recorded
        RecordThumbnail(DefaultThumbnailPath, guess, decodes);
      }
    }

    /** `_create_video_thumbnail`: the frame at one second, written as the
        stored file's name plus `.jpg`; any failure records the default. */
    method CreateVideoThumbnail(guess: string -> Option<string>, decodes: bool)
      requires DefaultsApplied() && Blank(thumbnail)
      modifies this
      decreases 1, 1
      ensures name == old(name) && size == old(size) && fileType == old(fileType)
      ensures thumbnail ==
        Some(if decodes then "thumbnails/" + Basename(fileName) + ".jpg" else DefaultThumbnailPath)
    {
      if decodes {
        // VideoFileClip, get_frame(1), thumbnail((100, 100)) and save succeed
        var path := VideoThumbnailPath(fileName);
        ConcatAssoc("thumbnails/", Basename(fileName), ".jpg");
        UnderThumbnails(Basename(fileName) + ".jpg");
        RecordThumbnail(path, guess, decodes);
      } else {
        RecordThumbnail(DefaultThumbnailPath, guess, decodes);
      }
    }

    /** `self.thumbnail = path` followed by `self.save()`, the last step of
        both thumbnail methods: with the defaults in place and a thumbnail
        set, the nested save changes nothing else. */
    method RecordThumbnail(path: string, guess: string -> Option<string>, decodes: bool)
      requires DefaultsApplied() && path != ""
      modifies this
      decreases 1, 0
      ensures name == old(name) && size == old(size) && fileType == old(fileType)
      ensures thumbnail == Some(path)
    {
      thumbnail := Some(path);
      assert fileType != "";
      var saved := Save(guess, decodes);
      assert saved.Pass?;
    }
  }

  /** A 2 MiB `photo.png` uploaded with no folder passes both validators, is
      stored as an image and gets a generated thumbnail under
      `thumbnails/`, distinct from the stored file's own path. */
  lemma UploadedPhotoIsImageWithThumbnail(guess: string -> Option<string>)
    requires guess("photo.png") == Some("image/png")
    requires guess("files/photo.png") == Some("image/png")
    ensures ValidateFileType("photo.png", guess).Pass?
    ensures ValidateFileSize("photo.png", 2097152, guess).Pass?
    ensures ChooseFileType("files/photo.png", guess) == Ok("image")
    ensures ThumbnailFor("files/photo.png", guess("files/photo.png"), true) == Some("thumbnails/photo.png")
  {
    assert StartsWith("image/png", "image");
    assert "files/photo.png" == "files" + "/" + "photo.png";
    BasenameOfJoined("files", "photo.png");
    assert Basename("files/photo.png") == "photo.png";
    assert "thumbnails/" + "photo.png" == "thumbnails/photo.png";
  }
}
