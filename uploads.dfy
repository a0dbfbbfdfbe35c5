/** The upload filter of the server: which file names count as images. */
module Uploads {
  import opened Text

  /** The configured image extensions. */
  const AllowedExtensions: set<string> := {"png", "jpg", "jpeg", "gif"}

  /** `name.rsplit('.', 1)[1]` for a name that contains a dot: everything after
      the last dot (the whole name when there is none). */
  function AfterLastDot(s: string): (r: string)
    ensures |r| <= |s| && r == s[|s| - |r|..] && '.' !in r
    ensures |r| < |s| ==> s[|s| - |r| - 1] == '.'
    ensures |r| == |s| ==> '.' !in s
  {
    if s == [] then []
    else if s[|s| - 1] == '.' then []
    else AfterLastDot(s[..|s| - 1]) + [s[|s| - 1]]
  }

  /** `allowed_file`: the name has a dot and its last extension, lower-cased, is
      one of the configured ones. */
  predicate AllowedFile(name: string)
  {
    '.' in name && Lower(AfterLastDot(name)) in AllowedExtensions
  }

  /** The text after position k is the extension when position k holds the last dot. */
  predicate LastDotAt(name: string, k: int)
  {
    0 <= k < |name| && name[k] == '.' && '.' !in name[k + 1..]
  }

  /** The filter in terms of positions: some dot is followed only by an allowed
      extension (in any ASCII case) containing no further dot. */
  lemma AllowedFileIffExtension(name: string)
    ensures AllowedFile(name) <==>
      exists k :: LastDotAt(name, k) && Lower(name[k + 1..]) in AllowedExtensions
  {
    var r := AfterLastDot(name);
    if '.' in name {
      var k := |name| - |r| - 1;
      assert name[k + 1..] == r;
      assert LastDotAt(name, k);
      forall j | LastDotAt(name, j) ensures j == k {
      }
    }
  }

  /** Upper-case extensions pass. */
  lemma UpperCaseExtensionAllowed()
    ensures AllowedFile("a.PNG")
  {
    AllowedFileIffExtension("a.PNG");
    assert LastDotAt("a.PNG", 1) && "a.PNG"[2..] == "PNG";
    assert Lower("PNG") == "png";
  }

  /** A bare extension with nothing before the dot passes, as do longer names. */
  lemma AllowedExamples()
    ensures AllowedFile(".png")
    ensures AllowedFile("photo.jpeg")
  {
    AllowedFileIffExtension(".png");
    assert LastDotAt(".png", 0) && ".png"[1..] == "png";
    assert Lower("png") == "png";
    AllowedFileIffExtension("photo.jpeg");
    assert LastDotAt("photo.jpeg", 5) && "photo.jpeg"[6..] == "jpeg";
    assert Lower("jpeg") == "jpeg";
  }

  lemma RejectedExamples()
    ensures !AllowedFile("a.png.exe")
    ensures !AllowedFile("file.")
    ensures !AllowedFile("noext")
  {
    AllowedFileIffExtension("a.png.exe");
    forall k | LastDotAt("a.png.exe", k) ensures Lower("a.png.exe"[k + 1..]) == "exe" {
      assert "a.png.exe"[6..] == "exe";
    }
    assert Lower("exe") == "exe";
    assert AfterLastDot("file.") == "";
    assert '.' !in "noext";
  }
}
