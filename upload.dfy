/** The GPX upload route's file handling: the `.gpx` suffix check, the
    filename sanitiser and the name the file is stored under. */
module Upload {
  import opened Common
  import opened Calendar
  import opened Text

  /** `UPLOAD_DIR` */
  const UploadDir: string := "uploads/gpx"

  /** The characters `_safe_filename` keeps. */
  predicate SafeChar(c: char)
  {
    IsAlnum(c) || c == '_' || c == '-' || c == '.' || c == '@'
  }

  function SafeCharOf(c: char): char
  {
    if SafeChar(c) then c else '_'
  }

  /** `_safe_filename`: each character kept when safe, `_` otherwise. */
  function SafeFilename(s: string): (r: string)
    ensures |r| == |s|
    ensures forall i :: 0 <= i < |s| ==> r[i] == SafeCharOf(s[i])
  {
    if s == [] then [] else [SafeCharOf(s[0])] + SafeFilename(s[1..])
  }

  /** Every character of the result is safe, so neither `/` nor `\` nor
      any other separator survives; safe characters stay where they were,
      and the rest become `_`. */
  lemma SafeFilenameChars(s: string)
    ensures forall i :: 0 <= i < |s| ==> SafeChar(SafeFilename(s)[i])
    ensures forall i :: 0 <= i < |s| ==> (SafeChar(s[i]) <==> SafeFilename(s)[i] == s[i])
    ensures forall i :: 0 <= i < |s| && !SafeChar(s[i]) ==> SafeFilename(s)[i] == '_'
    ensures '/' !in SafeFilename(s) && '\\' !in SafeFilename(s)
  {
    var r := SafeFilename(s);
    forall i | 0 <= i < |s| ensures SafeChar(r[i]) {
    }
    assert !SafeChar('/') && !SafeChar('\\');
  }

  /** Sanitising twice is sanitising once. */
  lemma SafeFilenameIdempotent(s: string)
    ensures SafeFilename(SafeFilename(s)) == SafeFilename(s)
  {
    SafeFilenameChars(s);
    var r := SafeFilename(s);
    assert forall i :: 0 <= i < |r| ==> SafeFilename(r)[i] == r[i];
  }

  /** The suffix test: `filename.lower().endswith(".gpx")`. */
  predicate GpxName(filename: string)
  {
    EndsWith(Lower(filename), ".gpx")
  }

  /** `f"{utilisateur_id}_{nom}_{gpx.filename}"`, sanitised. */
  function StoredName(userId: int, name: string, filename: string): string
  {
    SafeFilename(IntToString(userId) + "_" + name + "_" + filename)
  }

  /** `os.path.join(UPLOAD_DIR, fname)` for a name without `/`. */
  function StoredPath(fname: string): string
  {
    UploadDir + "/" + fname
  }

  /** The file handling of `creer_activite_gpx`: 400 unless the name ends
      in `.gpx` in any case; otherwise the path the file is written to. */
  function UploadPath(userId: int, name: string, filename: string): (r: Outcome<string>)
    ensures r.Raised? <==> !GpxName(filename)
    ensures r.Raised? ==> r.error == HttpError(400)
  {
    if !GpxName(filename) then Raised(HttpError(400))
    else Ok(StoredPath(StoredName(userId, name, filename)))
  }

  /** The characters of `.gpx`, in either case, are safe. */
  lemma GpxCharSafe(c: char, t: int)
    requires 0 <= t < 4 && LowerChar(c) == ".gpx"[t]
    ensures SafeCharOf(c) == c
  {
  }

  /** One of the last four characters, sanitised and lower-cased, is the
      matching character of `.gpx`. */
  lemma SuffixCharKept(prefix: string, filename: string, t: int)
    requires 0 <= t < 4 && |filename| >= 4 && LowerChar(filename[|filename| - 4 + t]) == ".gpx"[t]
    ensures |SafeFilename(prefix + filename)| == |prefix| + |filename|
    ensures Lower(SafeFilename(prefix + filename))[|prefix| + |filename| - 4 + t] == ".gpx"[t]
  {
    var j := |filename| - 4 + t;
    var k := |prefix| + j;
    assert (prefix + filename)[k] == filename[j];
    GpxCharKept(prefix + filename, k, t);
  }

  /** The `t`-th of the last four characters of an accepted name
      lower-cases to the `t`-th character of `.gpx`. */
  lemma GpxSuffixChar(filename: string, t: int)
    requires GpxName(filename) && 0 <= t < 4
    ensures |filename| >= 4 && LowerChar(filename[|filename| - 4 + t]) == ".gpx"[t]
  {
    var low := Lower(filename);
    assert low[|filename| - 4 + t] == low[|low| - 4..][t];
  }

  /** A character of `.gpx`, in either case, survives sanitising and
      lower-cases to that character. */
  lemma GpxCharKept(whole: string, k: int, t: int)
    requires 0 <= k < |whole| && 0 <= t < 4 && LowerChar(whole[k]) == ".gpx"[t]
    ensures |SafeFilename(whole)| == |whole|
    ensures Lower(SafeFilename(whole))[k] == ".gpx"[t]
  {
    GpxCharSafe(whole[k], t);
  }

  /** Sanitising keeps a `.gpx` ending of the last part of a name. */
  lemma SafeKeepsGpxSuffix(prefix: string, filename: string)
    requires GpxName(filename)
    ensures GpxName(SafeFilename(prefix + filename))
  {
    var low := Lower(SafeFilename(prefix + filename));
    var n := |prefix| + |filename|;
    forall t | 0 <= t < 4 ensures low[n - 4 + t] == ".gpx"[t] {
      GpxSuffixChar(filename, t);
      SuffixCharKept(prefix, filename, t);
    }
    assert low[n - 4..] == ".gpx";
  }

  /** An accepted upload lands directly in `UPLOAD_DIR`: the stored name has
      no separator, is neither `.` nor `..`, and still ends in `.gpx` once
      lower-cased. */
  lemma UploadStaysInDir(userId: int, name: string, filename: string)
    requires GpxName(filename)
    ensures var fname := StoredName(userId, name, filename);
      && UploadPath(userId, name, filename) == Ok(UploadDir + "/" + fname)
      && '/' !in fname && '\\' !in fname
      && fname != "." && fname != ".."
      && GpxName(fname)
  {
    var prefix := IntToString(userId) + "_" + name + "_";
    var fname := StoredName(userId, name, filename);
    assert prefix + filename == IntToString(userId) + "_" + name + "_" + filename;
    SafeFilenameChars(prefix + filename);
    SafeKeepsGpxSuffix(prefix, filename);
    var k := |IntToString(userId)|;
    assert (prefix + filename)[k] == '_';
    assert fname[k] == '_';
  }
}
