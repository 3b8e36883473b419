/**
 * The pure part of the media-host client: deriving the public id of an asset
 * from one of its URLs. Uploads, deletions and URL building are calls into the
 * media host and appear in the model only as events and parameters.
 */
module Cloudinary {
  import opened Wrappers
  import opened Strings

  /** The default `sliceValue`: `delete` keeps the last three path segments. */
  const DeleteSlice: int := -3

  /** `edit` keeps the last four path segments (version folder included). */
  const EditSlice: int := -4

  /**
   * `getPublicIdFromUrl`: split on '/', keep `slice(sliceValue)` of the
   * segments, join them with '/', then cut at the first '.' and at the first '?'.
   */
  function PublicIdFromUrl(url: string, sliceValue: int): (r: string)
    ensures '.' !in r && '?' !in r
  {
    var kept := Join(Slice(Split(url, '/'), sliceValue), '/');
    var noExt := Before(kept, '.');
    var r := Before(noExt, '?');
    assert forall x :: x in r ==> x in noExt;
    r
  }

  /**
   * The public id `delete(url, options)` destroys: `sliceValue` defaults to -3.
   * With the default, the target is a bare id of at most three segments that
   * is its own target, so handing `delete` a public id destroys that asset.
   */
  function DeleteTarget(url: string, sliceValue: Option<int>): (r: string)
    ensures sliceValue.None? ==> r == PublicIdFromUrl(url, DeleteSlice)
    ensures sliceValue.Some? ==> r == PublicIdFromUrl(url, sliceValue.value)
    ensures '.' !in r && '?' !in r
    ensures sliceValue.None? ==> |Split(r, '/')| <= 3 && PublicIdFromUrl(r, DeleteSlice) == r
  {
    if sliceValue.None? then
      SegmentBound(url, 3);
      PublicIdIdempotent(url, DeleteSlice);
      PublicIdFromUrl(url, DeleteSlice)
    else PublicIdFromUrl(url, sliceValue.value)
  }

  /**
   * `edit(url, options)`: the delivery URL the media host builds for the public id
   * taken with slice -4; `deliveryUrl` stands for `clouds.url` with the options.
   * That id is bare, has at most four segments, and is its own public id.
   */
  function Edit(url: string, deliveryUrl: string -> string): (r: string)
    ensures var id := PublicIdFromUrl(url, EditSlice);
      && r == deliveryUrl(id)
      && '.' !in id && '?' !in id && |Split(id, '/')| <= 4
      && PublicIdFromUrl(id, EditSlice) == id
  {
    SegmentBound(url, 4);
    PublicIdIdempotent(url, EditSlice);
    deliveryUrl(PublicIdFromUrl(url, EditSlice))
  }

  /** The public id is a prefix of a suffix of the URL, so a substring of it. */
  lemma PublicIdIsSubstring(url: string, sliceValue: int)
    ensures exists m :: 0 <= m <= |url| && PublicIdFromUrl(url, sliceValue) <= url[m..]
  {
    var parts := Split(url, '/');
    var k := SliceStart(|parts|, sliceValue);
    JoinTailIsSuffix(url, '/', k);
    var kept := Join(parts[k..], '/');
    var m := |url| - |kept|;
    assert kept == url[m..];
    var r := PublicIdFromUrl(url, sliceValue);
    assert r <= Before(kept, '.') <= kept;
  }

  /**
   * With `sliceValue = -k` the public id has at most `k` segments, and a URL
   * with no more than `k` segments keeps all of them (only the '.' and '?'
   * cuts apply).
   */
  lemma SegmentBound(url: string, k: nat)
    requires k >= 1
    ensures |Split(PublicIdFromUrl(url, -(k as int)), '/')| <= k
    ensures |Split(url, '/')| <= k ==>
      PublicIdFromUrl(url, -(k as int)) == Before(Before(url, '.'), '?')
  {
    var parts := Split(url, '/');
    var tail := Slice(parts, -(k as int));
    assert |tail| >= 1 && |tail| <= k;
    SplitParts(url, '/');
    var kept := Join(tail, '/');
    SplitJoin(tail, '/');
    SplitLength(kept, '/');
    var r := PublicIdFromUrl(url, -(k as int));
    assert r <= kept by {
      assert r <= Before(kept, '.') <= kept;
    }
    PrefixCount(r, kept, '/');
    SplitLength(r, '/');
    if |parts| <= k {
      assert tail == parts;
      JoinSplit(url, '/');
    }
  }

  /** A bare public id with fewer than `k` '/' and no '.' or '?' is its own public id. */
  lemma BareIdIsFixed(id: string, k: nat)
    requires k >= 1
    requires '.' !in id && '?' !in id
    requires |Split(id, '/')| <= k
    ensures PublicIdFromUrl(id, -(k as int)) == id
  {
    SegmentBound(id, k);
  }

  /**
   * Taking the public id twice with the same non-positive slice changes
   * nothing, which is why a bare public id can be handed to `delete`.
   */
  lemma PublicIdIdempotent(url: string, sliceValue: int)
    requires sliceValue <= 0
    ensures PublicIdFromUrl(PublicIdFromUrl(url, sliceValue), sliceValue)
         == PublicIdFromUrl(url, sliceValue)
  {
    var r := PublicIdFromUrl(url, sliceValue);
    if sliceValue < 0 {
      SegmentBound(url, -sliceValue);
      BareIdIsFixed(r, -sliceValue);
    } else {
      var parts := Split(r, '/');
      assert Slice(parts, sliceValue) == parts;
      JoinSplit(r, '/');
    }
  }

  /** Cutting `p.ext` at the first '.' and then at the first '?' leaves the plain `p`. */
  lemma {:induction false} CutAtExtension(p: string, ext: string)
    requires '.' !in p && '?' !in p
    ensures Before(Before(p + "." + ext, '.'), '?') == p
  {
    var s := p + "." + ext;
    assert s == p + ("." + ext);
    IndexOfAfterFree(p, "." + ext, '.');
    assert IndexOf(s, '.') == |p|;
    assert s[..|p|] == p;
  }

  /** Segments with no '/', '.' or '?' joined by '/' contain none of the three but the '/'s. */
  lemma PlainPath(a: string, b: string, c: string)
    requires '/' !in a && '.' !in a && '?' !in a
    requires '/' !in b && '.' !in b && '?' !in b
    requires '/' !in c && '.' !in c && '?' !in c
    ensures Join([a, b, c], '/') == a + "/" + b + "/" + c
    ensures '.' !in a + "/" + b + "/" + c && '?' !in a + "/" + b + "/" + c
  {
    JoinCons(b, [c], '/');
    JoinCons(a, [b, c], '/');
    assert forall x :: x in a + "/" + b + "/" + c ==> x in a || x == '/' || x in b || x in c;
  }

  /** The kept segments `folder/sub/id.ext` cut to the public id `folder/sub/id`. */
  lemma {:induction false} CutThree(folder: string, sub: string, id: string, ext: string)
    requires '/' !in folder && '.' !in folder && '?' !in folder
    requires '/' !in sub && '.' !in sub && '?' !in sub
    requires '/' !in id && '.' !in id && '?' !in id
    ensures Before(Before(Join([folder, sub, id + "." + ext], '/'), '.'), '?')
         == folder + "/" + sub + "/" + id
  {
    var p3 := folder + "/" + sub + "/" + id;
    PlainPath(folder, sub, id);
    JoinCons(sub, [id + "." + ext], '/');
    JoinCons(folder, [sub, id + "." + ext], '/');
    assert Join([folder, sub, id + "." + ext], '/') == p3 + "." + ext;
    CutAtExtension(p3, ext);
  }

  /** The kept segments `version/folder/sub/id.ext` cut to `version/folder/sub/id`. */
  lemma {:induction false} CutFour(version: string, folder: string, sub: string, id: string, ext: string)
    requires '/' !in version && '.' !in version && '?' !in version
    requires '/' !in folder && '.' !in folder && '?' !in folder
    requires '/' !in sub && '.' !in sub && '?' !in sub
    requires '/' !in id && '.' !in id && '?' !in id
    ensures Before(Before(Join([version, folder, sub, id + "." + ext], '/'), '.'), '?')
         == version + "/" + folder + "/" + sub + "/" + id
  {
    var p3 := folder + "/" + sub + "/" + id;
    var p4 := version + "/" + p3;
    PlainPath(folder, sub, id);
    JoinCons(sub, [id + "." + ext], '/');
    JoinCons(folder, [sub, id + "." + ext], '/');
    JoinCons(version, [folder, sub, id + "." + ext], '/');
    assert Join([version, folder, sub, id + "." + ext], '/') == p4 + "." + ext;
    assert '.' !in p4 && '?' !in p4 by {
      assert forall x :: x in p4 ==> x in version || x == '/' || x in p3;
    }
    CutAtExtension(p4, ext);
    assert p4 == version + "/" + folder + "/" + sub + "/" + id;
  }

  /**
   * For an asset URL `.../<version>/<folder>/<sub>/<id>.<ext>`, `delete`
   * destroys `<folder>/<sub>/<id>` (the public id the asset was uploaded
   * under) and `edit` builds its delivery URL from `<version>/<folder>/<sub>/<id>`.
   */
  lemma {:induction false} AssetUrlIds(head: seq<string>, version: string, folder: string, sub: string, id: string, ext: string)
    requires forall i :: 0 <= i < |head| ==> '/' !in head[i]
    requires '/' !in version && '.' !in version && '?' !in version
    requires '/' !in folder && '.' !in folder && '?' !in folder
    requires '/' !in sub && '.' !in sub && '?' !in sub
    requires '/' !in id && '.' !in id && '?' !in id
    requires '/' !in ext
    ensures var url := Join(head + [version, folder, sub, id + "." + ext], '/');
      && DeleteTarget(url, None) == folder + "/" + sub + "/" + id
      && PublicIdFromUrl(url, EditSlice) == version + "/" + folder + "/" + sub + "/" + id
  {
    var file := id + "." + ext;
    assert '/' !in file by {
      assert forall x :: x in file ==> x in id || x == '.' || x in ext;
    }
    var parts := head + [version, folder, sub, file];
    assert forall i :: 0 <= i < |parts| ==> '/' !in parts[i];
    SplitJoin(parts, '/');
    assert Split(Join(parts, '/'), '/') == parts;
    assert Slice(parts, DeleteSlice) == [folder, sub, file];
    assert Slice(parts, EditSlice) == [version, folder, sub, file];
    CutThree(folder, sub, id, ext);
    CutFour(version, folder, sub, id, ext);
  }
}
