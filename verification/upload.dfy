/** The upload rules (Admin/upload/middlewares/uploadMiddleware.js): the
    folder chosen from the MIME type, the MIME allowlist, and the stored
    file name with each whitespace run of the original name replaced by one
    underscore. */
module Upload {
  import opened Js

  /** `file.mimetype === 'application/json' ? 'json' : 'images'`. */
  function Destination(mimetype: string): (folder: string)
    ensures folder == "json" <==> mimetype == "application/json"
    ensures folder == "json" || folder == "images"
  {
    if mimetype == "application/json" then "json" else "images"
  }

  const Allowed: seq<string> := ["image/jpeg", "image/png", "image/webp", "application/json"]

  /** `fileFilter`: whether the file is accepted. A file it refuses is
      answered with an error and never stored. */
  function FileFilter(mimetype: string): (accepted: bool)
    ensures accepted <==> mimetype in Allowed
  {
    mimetype == "image/jpeg" || mimetype == "image/png" || mimetype == "image/webp"
    || mimetype == "application/json"
  }

  /** Every accepted file that is not JSON is one of the three image types
      and goes to the image folder. */
  lemma AcceptedFileFolder(mimetype: string)
    requires FileFilter(mimetype)
    ensures Destination(mimetype) == "images" <==> mimetype in {"image/jpeg", "image/png", "image/webp"}
  {
  }

  /** The scan behind `replace(/\s+/g, '_')`: `inRun` says the previous
      character was whitespace, already replaced. A whitespace character
      starts a run, written as one `_`, unless a run is open; any other
      character is kept and closes the run. */
  function Sanitise(s: string, inRun: bool): (r: string)
    ensures |r| <= |s|
    ensures NoSpace(r)
  {
    if s == [] then []
    else if IsSpace(s[0]) then
      if inRun then Sanitise(s[1..], true) else "_" + Sanitise(s[1..], true)
    else [s[0]] + Sanitise(s[1..], false)
  }

  /** `file.originalname.replace(/\s+/g, '_')`. */
  function SafeName(s: string): (r: string)
    ensures |r| <= |s| && NoSpace(r)
  {
    Sanitise(s, false)
  }

  /** A name without whitespace is stored as it is. */
  lemma {:induction false} SafeNameKeepsPlainName(s: string)
    requires NoSpace(s)
    ensures SafeName(s) == s
  {
    if s != [] {
      SafeNameKeepsPlainName(s[1..]);
    }
  }

  predicate AllSpace(w: string) {
    forall i :: 0 <= i < |w| ==> IsSpace(w[i])
  }

  /** Inside an open run, further whitespace adds nothing. */
  lemma {:induction false} RunAbsorbed(w: string, b: string)
    requires AllSpace(w)
    ensures Sanitise(w + b, true) == Sanitise(b, true)
  {
    if w == [] {
      assert w + b == b;
    } else {
      assert (w + b)[0] == w[0] && IsSpace(w[0]);
      assert (w + b)[1..] == w[1..] + b;
      RunAbsorbed(w[1..], b);
    }
  }

  /** Text that does not start with whitespace is scanned the same whether
      or not a run was open before it. */
  lemma RunClosed(b: string)
    requires b == [] || !IsSpace(b[0])
    ensures Sanitise(b, true) == Sanitise(b, false)
  {
  }

  /** A part that ends in a non-whitespace character closes any run, so
      what follows it is scanned on its own. */
  lemma {:induction false} SanitiseSplits(a: string, c: string, inRun: bool)
    requires a != [] && !IsSpace(a[|a| - 1])
    ensures Sanitise(a + c, inRun) == Sanitise(a, inRun) + Sanitise(c, false)
  {
    assert (a + c)[0] == a[0];
    assert (a + c)[1..] == a[1..] + c;
    if |a| == 1 {
      assert a[1..] + c == c;
    } else {
      SanitiseSplits(a[1..], c, IsSpace(a[0]));
    }
  }

  /** Each maximal whitespace run becomes exactly one `_`: for a part `a`
      that does not end in whitespace, a non-empty run `w`, and a part `b`
      that does not start with whitespace, the run is replaced and both
      parts are sanitised on their own. */
  lemma RunBecomesOneUnderscore(a: string, w: string, b: string)
    requires a == [] || !IsSpace(a[|a| - 1])
    requires w != [] && AllSpace(w)
    requires b == [] || !IsSpace(b[0])
    ensures SafeName(a + w + b) == SafeName(a) + "_" + SafeName(b)
  {
    assert (w + b)[0] == w[0];
    assert (w + b)[1..] == w[1..] + b;
    RunAbsorbed(w[1..], b);
    RunClosed(b);
    assert SafeName(w + b) == "_" + SafeName(b);
    if a == [] {
      assert a + w + b == w + b;
    } else {
      assert a + w + b == a + (w + b);
      SanitiseSplits(a, w + b, false);
    }
  }

  /** The name multer stores: the unique prefix, a dash, the safe name. */
  function StoredName(unique: string, originalName: string): (r: string)
    ensures |r| == |unique| + 1 + |SafeName(originalName)|
    ensures r[..|unique|] == unique && r[|unique|] == '-' && r[|unique| + 1..] == SafeName(originalName)
  {
    unique + "-" + SafeName(originalName)
  }

  /** `${Date.now()}-${Math.round(Math.random() * 1E9)}`, with the clock
      reading and the rounded draw given. */
  function UniquePrefix(now: nat, draw: nat): string {
    NatToString(now) + "-" + NatToString(draw)
  }

  /** The prefix is two decimal numbers joined by its only dash: the part
      before the dash reads back as the clock reading and the part after it
      as the draw, so the prefix has no whitespace and determines both. */
  lemma UniquePrefixReadsBack(now: nat, draw: nat)
    ensures var r := UniquePrefix(now, draw);
            var k := |NatToString(now)|;
            0 < k < |r| - 1 && r[k] == '-' && NoSpace(r)
            && (forall i :: 0 <= i < |r| && i != k ==> IsDigit(r[i]))
            && AllRadixDigits(r[..k], false) && RadixValue(r[..k], false) == now
            && AllRadixDigits(r[k + 1..], false) && RadixValue(r[k + 1..], false) == draw
  {
    var r := UniquePrefix(now, draw);
    var a, b := NatToString(now), NatToString(draw);
    assert r[..|a|] == a && r[|a| + 1..] == b;
    forall i | 0 <= i < |r| && i != |a| ensures IsDigit(r[i]) {
      if i < |a| {
        assert r[i] == a[i];
      } else {
        assert r[i] == b[i - |a| - 1];
      }
    }
    NatToStringValue(now);
    NatToStringValue(draw);
  }

  /** The stored name holds no whitespace after its prefix. */
  lemma StoredNameHasNoSpaceAfterPrefix(now: nat, draw: nat, originalName: string)
    ensures var u := UniquePrefix(now, draw);
            var r := StoredName(u, originalName);
            forall i :: |u| <= i < |r| ==> !IsSpace(r[i])
  {
  }
}
