/**
 * The upload helpers: the file-extension allow-list applied to a profile
 * photo's name, and the path under which the photo is stored.
 */
module Uploads {
  import opened Common
  import opened Text

  const AllowedExtensions: set<string> := {"png", "jpg", "jpeg"}

  /** Position of the last occurrence of c in s, if any. */
  function LastIndexOf(s: string, c: char): (r: Option<nat>)
    ensures r.None? <==> c !in s
    ensures r.Some? ==> r.value < |s| && s[r.value] == c && c !in s[r.value + 1..]
  {
    if s == [] then None
    else if s[|s| - 1] == c then Some(|s| - 1)
    else
      var r := LastIndexOf(s[..|s| - 1], c);
      assert s == s[..|s| - 1] + [s[|s| - 1]];
      r
  }

  /**
   * allowed_file: the name has a dot, and the text after the last dot,
   * lower-cased, is one of the allowed extensions.
   */
  predicate AllowedFile(filename: string) {
    match LastIndexOf(filename, '.')
    case None => false
    case Some(i) => Lower(filename[i + 1..]) in AllowedExtensions
  }

  /** A name without a dot is refused. */
  lemma NoDotRejected(filename: string)
    requires '.' !in filename
    ensures !AllowedFile(filename)
  {
  }

  /** Only the text after the last dot decides, case-insensitively. */
  lemma {:induction false} AllowedFileByExtension(base: string, ext: string)
    requires '.' !in ext
    ensures AllowedFile(base + "." + ext) <==> Lower(ext) in AllowedExtensions
  {
    var s := base + "." + ext;
    assert s[|base|] == '.';
    var r := LastIndexOf(s, '.');
    var i := r.value;
    assert i == |base|;
    assert s[i + 1..] == ext;
  }

  /** An upper-case extension is accepted. */
  lemma UpperCaseAccepted()
    ensures AllowedFile("A.PNG")
  {
    assert "A.PNG" == "A" + "." + "PNG";
    AllowedFileByExtension("A", "PNG");
    assert Lower("PNG") == "png";
  }

  /** An allowed extension followed by one that is not allowed (`a.png.exe`) is refused. */
  lemma DoubleExtensionRejected(base: string, inner: string, ext: string)
    requires inner in AllowedExtensions
    requires '.' !in ext && Lower(ext) !in AllowedExtensions
    ensures !AllowedFile(base + "." + inner + "." + ext)
  {
    AllowedFileByExtension(base + "." + inner, ext);
  }

  /** A name ending in a dot has an empty extension and is refused. */
  lemma TrailingDotRejected()
    ensures !AllowedFile("archive.")
  {
    assert "archive." == "archive" + "." + "";
    AllowedFileByExtension("archive", "");
  }

  /** The decimal digits of n, as Python's str() prints a non-negative int. */
  function Decimal(n: nat): (r: string)
    ensures r != [] && forall k :: 0 <= k < |r| ==> '0' <= r[k] <= '9'
  {
    if n < 10 then [('0' as int + n) as char]
    else Decimal(n / 10) + [('0' as int + n % 10) as char]
  }

  /** Reads a string of decimal digits back as a number. */
  function ParseDecimal(s: string): nat
    requires forall k :: 0 <= k < |s| ==> '0' <= s[k] <= '9'
  {
    if s == [] then 0
    else ParseDecimal(s[..|s| - 1]) * 10 + (s[|s| - 1] as int - '0' as int)
  }

  /** Decimal loses nothing: distinct user ids give distinct directory names. */
  lemma {:induction false} DecimalRoundTrip(n: nat)
    ensures ParseDecimal(Decimal(n)) == n
  {
    if n >= 10 {
      var d := Decimal(n);
      assert d[..|d| - 1] == Decimal(n / 10);
      DecimalRoundTrip(n / 10);
    }
  }

  /** os.path.join for two components. */
  function JoinPath(dir: string, name: string): (r: string)
    ensures !StartsWith(name, "/") && dir != [] && dir[|dir| - 1] != '/' ==> r == dir + "/" + name
    ensures StartsWith(name, "/") ==> r == name
  {
    if StartsWith(name, "/") then name
    else if dir == [] || dir[|dir| - 1] == '/' then dir + name
    else dir + "/" + name
  }

  /** `uploads/users/{user_id}` joined with the sanitised file name. */
  function PhotoPath(userId: nat, savedName: string): (r: string)
    ensures !StartsWith(savedName, "/") ==>
              r == "uploads/users/" + Decimal(userId) + "/" + savedName
  {
    JoinPath("uploads/users/" + Decimal(userId), savedName)
  }
}
