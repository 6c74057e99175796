/** The Cloudinary resource key of a stored image, derived from its URL as
    `url.split('/').pop().split('.')[0]`. */
module ImageKeys {

  /** What `split('/').pop()` yields: the longest suffix of `s` without a '/'. */
  function LastSegment(s: string): (r: string)
    ensures '/' !in r
    ensures |r| <= |s| && r == s[|s| - |r|..]
    ensures |r| < |s| ==> s[|s| - |r| - 1] == '/'
  {
    if s == [] then []
    else if s[|s| - 1] == '/' then []
    else
      var init := s[..|s| - 1];
      var rest := LastSegment(init);
      assert s == init + [s[|s| - 1]];
      assert init[|init| - |rest|..] + [s[|s| - 1]] == s[|init| - |rest|..];
      rest + [s[|s| - 1]]
  }

  /** What `split('.')[0]` yields: the longest prefix of `s` without a '.'. */
  function BeforeFirstDot(s: string): (r: string)
    ensures '.' !in r
    ensures |r| <= |s| && r == s[..|r|]
    ensures |r| < |s| ==> s[|r|] == '.'
  {
    if s == [] then []
    else if s[0] == '.' then []
    else
      var rest := BeforeFirstDot(s[1..]);
      assert [s[0]] + s[1..][..|rest|] == s[..|rest| + 1];
      [s[0]] + rest
  }

  /** The key handed to `destroy` when a post with an image is deleted. */
  function ImageKey(url: string): (key: string)
    ensures '/' !in key && '.' !in key
    ensures |key| <= |url|
  {
    BeforeFirstDot(LastSegment(url))
  }

  /** The segment after the last '/' is exactly what follows that '/'. */
  lemma LastSegmentAfterSlash(a: string, b: string)
    requires '/' !in b
    ensures LastSegment(a + "/" + b) == b
  {
    var s := a + "/" + b;
    assert s[|a|] == '/' && s[|a| + 1..] == b;
    var r := LastSegment(s);
    assert |r| == |b|;
    assert r == s[|s| - |b|..] == b;
  }

  /** The part before the first '.' is exactly what precedes that '.'. */
  lemma BeforeFirstDotOf(a: string, b: string)
    requires '.' !in a
    ensures BeforeFirstDot(a + "." + b) == a
  {
    var s := a + "." + b;
    assert s[|a|] == '.' && s[..|a|] == a;
    var r := BeforeFirstDot(s);
    assert |r| == |a|;
    assert r == s[..|a|] == a;
  }

  /** A hosted image URL `<base>/<name>.<ext>` has key `name`. */
  lemma ImageKeyOfUploadUrl(base: string, name: string, ext: string)
    requires '/' !in name && '.' !in name && '/' !in ext
    ensures ImageKey(base + "/" + name + "." + ext) == name
  {
    assert base + "/" + name + "." + ext == base + "/" + (name + "." + ext);
    LastSegmentAfterSlash(base, name + "." + ext);
    BeforeFirstDotOf(name, ext);
  }

  lemma ImageKeyExample()
    ensures ImageKey("https://cdn/v1/abc.jpg") == "abc"
  {
    ImageKeyOfUploadUrl("https://cdn/v1", "abc", "jpg");
    assert "https://cdn/v1" + "/" + "abc" + "." + "jpg" == "https://cdn/v1/abc.jpg";
  }
}
