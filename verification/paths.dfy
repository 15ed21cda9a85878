/** POSIX path-name helpers from Python's `os.path`: `splitext`, which the
    upload component uses to find a file's extension and base name, and
    `join`, which places the saved copy in the upload directory. */
module PathNames {
  import opened Strings

  /** `os.sep` on POSIX. */
  const Sep: char := '/'
  /** `os.extsep`. */
  const ExtSep: char := '.'

  /** Some character of `p[lo..hi]` is not a dot. `splitext` only treats a
      dot as an extension separator when the final path component has a
      non-dot character before it, so ".bashrc" and "..." have no extension. */
  predicate NonDotBetween(p: string, lo: int, hi: int) {
    exists k :: lo <= k < hi && 0 <= k < |p| && p[k] != ExtSep
  }

  /** `os.path.splitext(p)`: `(root, ext)` where `ext` runs from the last dot
      of the final path component to the end, or is empty when that
      component has no dot after a non-dot character. */
  function SplitExt(p: string): (r: (string, string))
    ensures r.0 + r.1 == p
    ensures r.1 == [] || r.1[0] == ExtSep
    ensures forall k :: 1 <= k < |r.1| ==> r.1[k] != ExtSep && r.1[k] != Sep
    ensures r.1 != [] ==>
              && LastIndexOf(p, Sep) < |r.0| == LastIndexOf(p, ExtSep)
              && NonDotBetween(p, LastIndexOf(p, Sep) + 1, |r.0|)
    ensures r.1 == [] ==>
              forall d :: LastIndexOf(p, Sep) < d < |p| && p[d] == ExtSep ==>
                !NonDotBetween(p, LastIndexOf(p, Sep) + 1, d)
  {
    var sep := LastIndexOf(p, Sep);
    var dot := LastIndexOf(p, ExtSep);
    if dot > sep && NonDotBetween(p, sep + 1, dot) then
      (p[..dot], p[dot..])
    else
      assert forall d :: sep < d < |p| && p[d] == ExtSep ==> d <= dot;
      (p, [])
  }

  /** `os.path.join(dir, name)` for two components: an absolute `name`
      replaces `dir`; otherwise a separator is inserted unless `dir` is empty
      or already ends with one. */
  function Join(dir: string, name: string): (r: string)
    ensures EndsWith(r, name)
    ensures StartsWith(name, [Sep]) ==> r == name
    ensures !StartsWith(name, [Sep]) ==> StartsWith(r, dir)
    ensures !StartsWith(name, [Sep]) && dir != [] && !EndsWith(dir, [Sep]) ==> r == dir + [Sep] + name
    ensures !StartsWith(name, [Sep]) && (dir == [] || EndsWith(dir, [Sep])) ==> r == dir + name
  {
    if StartsWith(name, [Sep]) then name
    else if dir == [] || EndsWith(dir, [Sep]) then dir + name
    else dir + [Sep] + name
  }

  /** A tag of this shape can sit between a root and an extension without
      being mistaken for either. */
  predicate IsPlainTag(tag: string) {
    && |tag| > 0 && tag[0] != ExtSep
    && forall k :: 0 <= k < |tag| ==> tag[k] != ExtSep && tag[k] != Sep
  }

  /** Inserting a dot- and slash-free tag between the root and the extension
      of a name leaves the extension where `splitext` finds it: the new name
      splits into the old root with the tag appended, and the old extension. */
  lemma SplitExtAfterTag(p: string, tag: string)
    requires IsPlainTag(tag)
    ensures SplitExt(SplitExt(p).0 + tag + SplitExt(p).1) == (SplitExt(p).0 + tag, SplitExt(p).1)
  {
    if SplitExt(p).1 != [] {
      TagBeforeExtension(p, tag);
    } else {
      TagWithoutExtension(p, tag);
    }
  }

  /** With an extension present, the last slash of the tagged name is the
      last slash of the original. */
  lemma TaggedSlash(p: string, tag: string)
    requires IsPlainTag(tag)
    requires SplitExt(p).1 != []
    ensures LastIndexOf(SplitExt(p).0 + tag + SplitExt(p).1, Sep) == LastIndexOf(p, Sep)
  {
    var root := SplitExt(p).0;
    var ext := SplitExt(p).1;
    var tail := tag + ext;
    forall k | 0 <= k < |tail| ensures tail[k] != Sep {
      if k < |tag| { assert tail[k] == tag[k]; }
      else { assert tail[k] == ext[k - |tag|]; }
    }
    assert root + tag + ext == root + tail;
    LastIndexOfAppend(root, tail, Sep);
    LastIndexOfAppend(root, ext, Sep);
  }

  /** With an extension present, the last dot of the tagged name opens the
      original extension. */
  lemma TaggedDot(p: string, tag: string)
    requires IsPlainTag(tag)
    requires SplitExt(p).1 != []
    ensures LastIndexOf(SplitExt(p).0 + tag + SplitExt(p).1, ExtSep) == |SplitExt(p).0| + |tag|
  {
    var root := SplitExt(p).0;
    var ext := SplitExt(p).1;
    var q := root + tag + ext;
    var dot' := |root| + |tag|;
    assert q[dot'] == ext[0];
    forall k | dot' < k < |q| ensures q[k] != ExtSep {
      assert q[k] == ext[k - dot'];
    }
    LastIndexOfIs(q, ExtSep, dot');
  }

  lemma TagBeforeExtension(p: string, tag: string)
    requires IsPlainTag(tag)
    requires SplitExt(p).1 != []
    ensures SplitExt(SplitExt(p).0 + tag + SplitExt(p).1) == (SplitExt(p).0 + tag, SplitExt(p).1)
  {
    var root := SplitExt(p).0;
    var ext := SplitExt(p).1;
    var q := root + tag + ext;
    var sep := LastIndexOf(p, Sep);
    var dot' := |root| + |tag|;
    TaggedSlash(p, tag);
    TaggedDot(p, tag);
    // The first character of the tag is the non-dot witness.
    assert q[|root|] == tag[0];
    assert NonDotBetween(q, sep + 1, dot');
    assert q[..dot'] == root + tag;
    assert q[dot'..] == ext;
  }

  lemma TagWithoutExtension(p: string, tag: string)
    requires IsPlainTag(tag)
    requires SplitExt(p).1 == []
    ensures SplitExt(SplitExt(p).0 + tag + SplitExt(p).1) == (SplitExt(p).0 + tag, SplitExt(p).1)
  {
    var q := p + tag;
    assert SplitExt(p).0 + tag + SplitExt(p).1 == q;
    var sep := LastIndexOf(p, Sep);
    var dot := LastIndexOf(p, ExtSep);
    LastIndexOfAppend(p, tag, Sep);
    LastIndexOfAppend(p, tag, ExtSep);
    assert !(dot > sep && NonDotBetween(p, sep + 1, dot));
    assert forall k :: 0 <= k < |p| ==> q[k] == p[k];
  }
}
