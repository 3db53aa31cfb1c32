/** The game submission form (src/app/submission/page.tsx): reading the
    form, the ordered validation that stops at the first problem, the store
    links and image slots it collects, and the names under which the images
    are uploaded. The upload and the insert themselves are not modelled. */
module Submission {
  import opened Wrappers
  import opened Text

  /** The store-link fields, in the form's order. */
  const PlatformKeys: seq<string> := ["steam", "itch", "nintendo", "playstation", "xbox", "metaquest"]

  const RequiredMsg := "Please fill all required fields."
  const EmailMsg := "Please provide your email."
  const RightsMsg := "You must confirm that you hold the rights to submit this game."
  const LinkMsg := "Please provide at least one store link."
  const ImageMsg := "Please add at least one image."
  const BucketMsg := "Storage bucket id missing. Define NEXT_PUBLIC_SUPABASE_BUCKET in .env.local"

  /** The folder of a game's images in the bucket. */
  const FolderPrefix := "GameCardFootage/"

  /** A file chosen in an image input. */
  datatype Upload = Upload(name: string, size: nat)

  /** One form entry: a text value or a file. */
  datatype FormValue = FieldText(text: string) | FieldFile(file: Upload)

  /** The submitted form data, one value per field name. */
  type FormData = map<string, FormValue>

  /** `fd.get(key)`: `None` (null) for a missing field. */
  function Get(fd: FormData, key: string): (v: Option<FormValue>)
    ensures v.Some? <==> key in fd
  {
    if key in fd then Some(fd[key]) else None
  }

  /** `String(fd.get(key) || fallback)`: the fallback for a missing or
      empty field; a file is stringified as an object. */
  function FieldOr(v: Option<FormValue>, fallback: string): (r: string)
    ensures v == None || v == Some(FieldText("")) ==> r == fallback
    ensures v.Some? && v.value.FieldText? && v.value.text != "" ==> r == v.value.text
  {
    match v
    case None => fallback
    case Some(FieldText(t)) => if t == "" then fallback else t
    case Some(FieldFile(_)) => "[object File]"
  }

  /** The fields `onSubmit` reads. */
  datatype Form = Form(
    id: string,
    name: string,
    description: string,
    developer: string,
    publisher: Option<string>,
    ageRating: string,
    genre: string,
    email: string,
    rightsConfirmed: bool,
    videoUrl: string)

  /** `String(fd.get(key) || "").trim()`: the trimmed value of a text
      field, "" when it is missing. */
  function TrimmedField(fd: FormData, key: string): string {
    Trim(FieldOr(Get(fd, key), ""))
  }

  /** Reading the form: text fields trimmed, a blank publisher becomes
      null, the age rating (untrimmed) defaults to "Not Rated", and the
      rights box counts only when its value is "on". */
  function ReadForm(fd: FormData): (f: Form)
    ensures f.id == TrimmedField(fd, "id") && f.name == TrimmedField(fd, "name")
    ensures f.description == TrimmedField(fd, "description") && f.developer == TrimmedField(fd, "developer")
    ensures f.genre == TrimmedField(fd, "genre") && f.email == TrimmedField(fd, "email")
    ensures f.videoUrl == TrimmedField(fd, "videourl")
    ensures IsTrimmed(f.id) && IsTrimmed(f.name) && IsTrimmed(f.description) && IsTrimmed(f.developer)
    ensures IsTrimmed(f.genre) && IsTrimmed(f.email) && IsTrimmed(f.videoUrl)
    ensures f.publisher == None <==> TrimmedField(fd, "publisher") == ""
    ensures f.publisher.Some? ==> f.publisher.value == TrimmedField(fd, "publisher") && f.publisher.value != ""
    ensures f.ageRating == FieldOr(Get(fd, "age_rating"), "Not Rated")
    ensures Get(fd, "age_rating") == None || Get(fd, "age_rating") == Some(FieldText("")) ==> f.ageRating == "Not Rated"
    ensures f.rightsConfirmed <==> Get(fd, "rights_confirmed") == Some(FieldText("on"))
  {
    var publisher := TrimmedField(fd, "publisher");
    Form(
      TrimmedField(fd, "id"),
      TrimmedField(fd, "name"),
      TrimmedField(fd, "description"),
      TrimmedField(fd, "developer"),
      if publisher == "" then None else Some(publisher),
      FieldOr(Get(fd, "age_rating"), "Not Rated"),
      TrimmedField(fd, "genre"),
      TrimmedField(fd, "email"),
      Get(fd, "rights_confirmed") == Some(FieldText("on")),
      TrimmedField(fd, "videourl"))
  }

  /** Some store-link field holds a non-blank value. */
  predicate HasLink(fd: FormData) {
    exists k :: k in PlatformKeys && TrimmedField(fd, k) != ""
  }

  /** `links`: filled by a pass over the platform keys, keeping each
      trimmed non-empty value under its key. */
  method CollectLinks(fd: FormData) returns (links: map<string, string>)
    ensures forall k :: k in links <==> k in PlatformKeys && TrimmedField(fd, k) != ""
    ensures forall k :: k in links ==> links[k] == TrimmedField(fd, k)
    ensures |links| == 0 <==> !HasLink(fd)
  {
    links := LinksOver(fd, PlatformKeys);
    if HasLink(fd) {
      var k :| k in PlatformKeys && TrimmedField(fd, k) != "";
      assert k in links;
    }
  }

  /** The `forEach` over a list of keys. */
  method LinksOver(fd: FormData, keys: seq<string>) returns (links: map<string, string>)
    ensures forall k :: k in links <==> k in keys && TrimmedField(fd, k) != ""
    ensures forall k :: k in links ==> links[k] == TrimmedField(fd, k)
  {
    links := map[];
    var i := 0;
    while i < |keys|
      invariant 0 <= i <= |keys|
      invariant forall k :: k in links <==> k in keys[..i] && TrimmedField(fd, k) != ""
      invariant forall k :: k in links ==> links[k] == TrimmedField(fd, k)
    {
      var key := keys[i];
      var v := TrimmedField(fd, key);
      assert keys[..i + 1] == keys[..i] + [key];
      assert forall k :: k in keys[..i + 1] <==> k in keys[..i] || k == key;
      if v != "" {
        links := links[key := v];
      }
      i := i + 1;
    }
    assert keys[..i] == keys;
  }

  /** `String(n)` for a natural number: its decimal digits. */
  function NatToString(n: nat): (r: string)
    ensures |r| >= 1 && forall k :: 0 <= k < |r| ==> '0' <= r[k] <= '9'
  {
    if n < 10 then [('0' as int + n) as char]
    else NatToString(n / 10) + [('0' as int + n % 10) as char]
  }

  /** The value a string of decimal digits denotes. */
  function ParseDigits(s: string): nat
    requires forall k :: 0 <= k < |s| ==> '0' <= s[k] <= '9'
  {
    if s == [] then 0 else ParseDigits(s[..|s| - 1]) * 10 + (s[|s| - 1] as int - '0' as int)
  }

  /** Reading the digits back gives the number. */
  lemma {:induction false} NatToStringRoundTrip(n: nat)
    ensures ParseDigits(NatToString(n)) == n
  {
    if n >= 10 {
      var s := NatToString(n);
      assert s[..|s| - 1] == NatToString(n / 10);
      NatToStringRoundTrip(n / 10);
    }
  }

  /** Different numbers are written differently. */
  lemma NatToStringInjective(a: nat, b: nat)
    requires NatToString(a) == NatToString(b)
    ensures a == b
  {
    NatToStringRoundTrip(a);
    NatToStringRoundTrip(b);
  }

  /** The name of the `i`-th image input. */
  function SlotName(i: nat): string {
    "image" + NatToString(i)
  }

  /** A slot holds a file (not text) of positive size. */
  predicate IsUpload(v: Option<FormValue>) {
    v.Some? && v.value.FieldFile? && v.value.file.size > 0
  }

  /** The files of the slots `image1` .. `image<n>`, in slot order. */
  function SlotFiles(fd: FormData, n: nat): (r: seq<Upload>)
    ensures |r| <= n
  {
    if n == 0 then []
    else
      var v := Get(fd, SlotName(n));
      SlotFiles(fd, n - 1) + (if IsUpload(v) then [v.value.file] else [])
  }

  /** A file is collected exactly when some slot up to `n` holds it with a
      positive size. */
  lemma {:induction false} SlotFilesMembership(fd: FormData, n: nat, f: Upload)
    ensures f in SlotFiles(fd, n) <==> exists i :: 1 <= i <= n && Get(fd, SlotName(i)) == Some(FieldFile(f)) && f.size > 0
  {
    if n > 0 {
      SlotFilesMembership(fd, n - 1, f);
      if exists i :: 1 <= i <= n && Get(fd, SlotName(i)) == Some(FieldFile(f)) && f.size > 0 {
        var i :| 1 <= i <= n && Get(fd, SlotName(i)) == Some(FieldFile(f)) && f.size > 0;
        if i < n {
          assert f in SlotFiles(fd, n - 1);
        }
      }
    }
  }

  /** The loop over the five image inputs. */
  method CollectFiles(fd: FormData) returns (files: seq<Upload>)
    ensures files == SlotFiles(fd, 5)
    ensures |files| <= 5
  {
    files := [];
    var i := 1;
    while i <= 5
      invariant 1 <= i <= 6
      invariant files == SlotFiles(fd, i - 1)
    {
      var f := Get(fd, SlotName(i));
      if f.Some? && f.value.FieldFile? && f.value.file.size > 0 {
        files := files + [f.value.file];
      }
      i := i + 1;
    }
  }

  /** A required field (id, name, description, developer, genre) is
      blank. */
  predicate MissingRequired(f: Form) {
    f.id == "" || f.name == "" || f.description == "" || f.developer == "" || f.genre == ""
  }

  /** What an accepted submission uploads and inserts. */
  datatype Plan = Plan(form: Form, links: map<string, string>, folder: string, files: seq<Upload>)

  /** `onSubmit` up to the upload: the checks in order, each returning its
      own message; the bucket id is the configured one ("" when missing). */
  method OnSubmit(fd: FormData, bucket: string) returns (r: Result<Plan, string>)
    ensures var f := ReadForm(fd);
      && (r == Err(RequiredMsg) <==> MissingRequired(f))
      && (r == Err(EmailMsg) <==> !MissingRequired(f) && f.email == "")
      && (r == Err(RightsMsg) <==> !MissingRequired(f) && f.email != "" && !f.rightsConfirmed)
      && (r == Err(LinkMsg) <==> !MissingRequired(f) && f.email != "" && f.rightsConfirmed && !HasLink(fd))
      && (r == Err(ImageMsg) <==>
           !MissingRequired(f) && f.email != "" && f.rightsConfirmed && HasLink(fd) && SlotFiles(fd, 5) == [])
      && (r == Err(BucketMsg) <==>
           !MissingRequired(f) && f.email != "" && f.rightsConfirmed && HasLink(fd) && SlotFiles(fd, 5) != []
           && bucket == "")
      && (r.Ok? <==>
           !MissingRequired(f) && f.email != "" && f.rightsConfirmed && HasLink(fd) && SlotFiles(fd, 5) != []
           && bucket != "")
    ensures r.Ok? ==> r.value.form == ReadForm(fd) && r.value.files == SlotFiles(fd, 5)
    ensures r.Ok? ==> r.value.folder == FolderPrefix + ReadForm(fd).id && ReadForm(fd).id != ""
    ensures r.Ok? ==> forall k :: k in r.value.links <==> k in PlatformKeys && TrimmedField(fd, k) != ""
    ensures r.Ok? ==> forall k :: k in r.value.links ==> r.value.links[k] == TrimmedField(fd, k)
  {
    var f := ReadForm(fd);
    var links := CollectLinks(fd);
    if f.id == "" || f.name == "" || f.description == "" || f.developer == "" || f.genre == "" {
      return Err(RequiredMsg);
    }
    if f.email == "" {
      return Err(EmailMsg);
    }
    if !f.rightsConfirmed {
      return Err(RightsMsg);
    }
    if |links| == 0 {
      return Err(LinkMsg);
    }
    var files := CollectFiles(fd);
    if |files| == 0 {
      return Err(ImageMsg);
    }
    var folder := FolderPrefix + f.id;
    if bucket == "" {
      return Err(BucketMsg);
    }
    return Ok(Plan(f, links, folder, files));
  }

  /** A character the file-name sanitiser keeps: an ASCII letter or digit,
      `_`, `.` or `-`. */
  predicate IsSafeChar(c: char) {
    ('a' <= c <= 'z') || ('A' <= c <= 'Z') || ('0' <= c <= '9') || c == '_' || c == '.' || c == '-'
  }

  /** `safeName`: every other character replaced by `_`. */
  function SafeName(name: string): (r: string)
    ensures |r| == |name|
    ensures forall k :: 0 <= k < |r| ==> IsSafeChar(r[k])
    ensures forall k :: 0 <= k < |r| && IsSafeChar(name[k]) ==> r[k] == name[k]
  {
    seq(|name|, k requires 0 <= k < |name| => if IsSafeChar(name[k]) then name[k] else '_')
  }

  /** Sanitising a sanitised name changes nothing, and a name of safe
      characters only is kept as it is. */
  lemma SafeNameIdempotent(name: string)
    ensures SafeName(SafeName(name)) == SafeName(name)
    ensures (forall k :: 0 <= k < |name| ==> IsSafeChar(name[k])) ==> SafeName(name) == name
  {
  }

  /** The upload path of the `i`-th file: its folder, the time stamp, the
      file's index and its sanitised name. */
  function UploadPath(folder: string, now: nat, i: nat, safeName: string): (p: string)
    ensures StartsWith(p, folder + "/")
  {
    folder + "/" + (NatToString(now) + "_" + (NatToString(i) + "_" + safeName))
  }

  predicate NoUnderscore(s: string) {
    forall k :: 0 <= k < |s| ==> s[k] != '_'
  }

  /** A string whose first `_` comes earlier is a different string. */
  lemma EarlierUnderscore(a: string, x: string, b: string, y: string)
    ensures NoUnderscore(b) && |a| < |b| ==> a + "_" + x != b + "_" + y
  {
    if NoUnderscore(b) && |a| < |b| {
      assert (a + "_" + x)[|a|] == '_';
      assert (b + "_" + y)[|a|] == b[|a|];
    }
  }

  /** The first `_` splits a string uniquely. */
  lemma UnderscoreSplit(a: string, x: string, b: string, y: string)
    requires NoUnderscore(a) && NoUnderscore(b)
    requires a + "_" + x == b + "_" + y
    ensures a == b && x == y
  {
    EarlierUnderscore(a, x, b, y);
    EarlierUnderscore(b, y, a, x);
    var s := a + "_" + x;
    assert a == s[..|a|] == b;
    assert x == s[|a| + 1..] == y;
  }

  /** Two files of one submission never share an upload path, whatever
      time stamps they get. */
  lemma PathsDistinct(folder: string, t1: nat, t2: nat, i: nat, j: nat, s1: string, s2: string)
    requires i != j
    ensures UploadPath(folder, t1, i, s1) != UploadPath(folder, t2, j, s2)
  {
    var pre := folder + "/";
    var a1 := NatToString(t1) + "_" + (NatToString(i) + "_" + s1);
    var a2 := NatToString(t2) + "_" + (NatToString(j) + "_" + s2);
    if pre + a1 == pre + a2 {
      assert a1 == (pre + a1)[|pre|..];
      assert a2 == (pre + a2)[|pre|..];
      UnderscoreSplit(NatToString(t1), NatToString(i) + "_" + s1, NatToString(t2), NatToString(j) + "_" + s2);
      UnderscoreSplit(NatToString(i), s1, NatToString(j), s2);
      NatToStringInjective(i, j);
    }
  }

  /** The upload loop's paths: one per file, the time stamps being what the
      clock showed at each step. */
  method UploadPaths(folder: string, files: seq<Upload>, clock: seq<nat>) returns (paths: seq<string>)
    requires |clock| == |files|
    ensures |paths| == |files|
    ensures forall i :: 0 <= i < |paths| ==> paths[i] == UploadPath(folder, clock[i], i, SafeName(files[i].name))
    ensures forall i :: 0 <= i < |paths| ==> StartsWith(paths[i], folder + "/")
    ensures forall i, j :: 0 <= i < j < |paths| ==> paths[i] != paths[j]
  {
    paths := [];
    var i := 0;
    while i < |files|
      invariant 0 <= i <= |files|
      invariant |paths| == i
      invariant forall k :: 0 <= k < i ==> paths[k] == UploadPath(folder, clock[k], k, SafeName(files[k].name))
    {
      var safeName := SafeName(files[i].name);
      paths := paths + [UploadPath(folder, clock[i], i, safeName)];
      i := i + 1;
    }
    forall i, j | 0 <= i < j < |paths| ensures paths[i] != paths[j] {
      PathsDistinct(folder, clock[i], clock[j], i, j, SafeName(files[i].name), SafeName(files[j].name));
    }
  }

  /** The truthy entries of a list of optional class names. */
  function Present(parts: seq<Option<string>>): (r: seq<string>)
    ensures forall k :: 0 <= k < |r| ==> r[k] != ""
  {
    if parts == [] then []
    else (if parts[0].Some? && parts[0].value != "" then [parts[0].value] else []) + Present(parts[1..])
  }

  /** `wrap(cls, extra)`: the non-empty class names joined by one space. */
  function Wrap(cls: string, extra: Option<string>): (r: string)
    ensures cls == "" && (extra == None || extra == Some("")) ==> r == ""
    ensures cls != "" && (extra == None || extra == Some("")) ==> r == cls
    ensures cls == "" && extra.Some? && extra.value != "" ==> r == extra.value
    ensures cls != "" && extra.Some? && extra.value != "" ==> r == cls + " " + extra.value
  {
    var parts := [Some(cls), extra];
    var first := if cls != "" then [cls] else [];
    var second := if extra.Some? && extra.value != "" then [extra.value] else [];
    assert parts[1..] == [extra] && [extra][1..] == [];
    assert Present([extra]) == second + Present([]);
    assert Present(parts) == first + second;
    assert |first| + |second| == 2 ==> (first + second)[1..] == second;
    assert |first| + |second| == 2 ==> Join(first + second, " ") == first[0] + " " + Join(second, " ");
    Join(Present(parts), " ")
  }
}
