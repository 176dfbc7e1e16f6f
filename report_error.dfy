/** The service name the error report shows (worker.js:145-152), taken from
    the page's `siteName`. */
module ReportError {
  import opened Text

  /** After the last '/' if there is one, else before the first '.' if there
      is one, else the whole name. */
  function ServiceName(siteName: string): (r: string)
    ensures '/' in siteName ==> '/' !in r && EndsWith(siteName, "/" + r)
    ensures '/' !in siteName && '.' in siteName ==> '.' !in r && StartsWith(siteName, r + ".")
    ensures '/' !in siteName && '.' !in siteName ==> r == siteName
  {
    if '/' in siteName then
      var parts := Split(siteName, '/');
      SplitLast(siteName, '/');
      var last := parts[|parts| - 1];
      assert siteName[|siteName| - |"/" + last|..] == "/" + last;
      last
    else if '.' in siteName then
      var parts := Split(siteName, '.');
      SplitFirst(siteName, '.');
      assert siteName[..|parts[0] + "."|] == parts[0] + ".";
      parts[0]
    else siteName
  }

  /** Only one suffix after an occurrence of `sep` is free of `sep`. */
  lemma SegmentAfterUnique(s: string, sep: char, a: string, b: string)
    requires sep !in a && sep !in b && EndsWith(s, [sep] + a) && EndsWith(s, [sep] + b)
    ensures a == b
  {
    assert forall k :: |s| - |a| <= k < |s| ==> s[k] == a[k - (|s| - |a|)];
    assert forall k :: |s| - |b| <= k < |s| ==> s[k] == b[k - (|s| - |b|)];
    assert s[|s| - |a| - 1] == sep && s[|s| - |b| - 1] == sep;
    assert |a| == |b|;
    assert a == s[|s| - |a|..] == b;
  }

  /** Only one prefix before an occurrence of `sep` is free of `sep`. */
  lemma SegmentBeforeUnique(s: string, sep: char, a: string, b: string)
    requires sep !in a && sep !in b && StartsWith(s, a + [sep]) && StartsWith(s, b + [sep])
    ensures a == b
  {
    assert forall k :: 0 <= k < |a| ==> s[k] == a[k];
    assert forall k :: 0 <= k < |b| ==> s[k] == b[k];
    assert s[|a|] == sep && s[|b|] == sep;
    assert |a| == |b|;
    assert a == s[..|a|] == b;
  }

  /** The two conditions pin the name down: only one suffix after a '/'
      holds no '/', and only one prefix before a '.' holds no '.'. */
  lemma ServiceNameUnique(siteName: string, other: string)
    ensures '/' in siteName && '/' !in other && EndsWith(siteName, "/" + other) ==> other == ServiceName(siteName)
    ensures '/' !in siteName && '.' !in other && StartsWith(siteName, other + ".") ==> other == ServiceName(siteName)
  {
    var r := ServiceName(siteName);
    if '/' in siteName && '/' !in other && EndsWith(siteName, "/" + other) {
      SegmentAfterUnique(siteName, '/', other, r);
    }
    if '/' !in siteName && '.' !in other && StartsWith(siteName, other + ".") {
      assert siteName[|other|] == '.';
      SegmentBeforeUnique(siteName, '.', other, r);
    }
  }
}
