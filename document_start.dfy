/**
 * Locating the XML document inside a battle-record file
 * (XMLParser/parseBattleRecord.go, lines 207-212): the file may start with an
 * arbitrary prefix, the document begins at the first occurrence of "<?xml",
 * and a file without that marker is rejected. Each `char` stands for one byte
 * of the file, as Go's `string(xmlFile)` and `strings.Index` work on bytes.
 */
module DocumentStart {
  import opened Wrappers

  /** The literal that opens the XML document. */
  const XmlMarker: string := "<?xml"

  /** `pat` occurs in `s` starting at index `i`. */
  predicate OccursAt(s: string, pat: string, i: int) {
    0 <= i && i + |pat| <= |s| && s[i..i + |pat|] == pat
  }

  /** An occurrence in `s[1..]` is an occurrence in `s` one place later, and back. */
  lemma OccursAtTail(s: string, pat: string, i: int)
    requires s != [] && 0 <= i
    ensures OccursAt(s[1..], pat, i) <==> OccursAt(s, pat, i + 1)
  {
    if 0 <= i && i + |pat| <= |s| - 1 {
      assert s[1..][i..i + |pat|] == s[i + 1..i + 1 + |pat|];
    }
  }

  /**
   * strings.Index: the index of the first occurrence of `pat` in `s`, or -1
   * when there is none.
   */
  function Index(s: string, pat: string): (r: int)
    ensures r == -1 <==> forall i :: !OccursAt(s, pat, i)
    ensures r != -1 ==> OccursAt(s, pat, r)
    ensures forall i | 0 <= i < r :: !OccursAt(s, pat, i)
    decreases |s|
  {
    if pat <= s then
      assert OccursAt(s, pat, 0);
      0
    else if s == [] then
      -1
    else
      var r := Index(s[1..], pat);
      assert !OccursAt(s, pat, 0);
      if r == -1 then
        assert forall i :: !OccursAt(s, pat, i) by {
          forall i | i > 0 ensures !OccursAt(s, pat, i) {
            OccursAtTail(s, pat, i - 1);
          }
        }
        -1
      else
        assert OccursAt(s, pat, r + 1) by {
          OccursAtTail(s, pat, r);
        }
        assert forall i | 0 < i < r + 1 :: !OccursAt(s, pat, i) by {
          forall i | 0 < i < r + 1 ensures !OccursAt(s, pat, i) {
            OccursAtTail(s, pat, i - 1);
          }
        }
        r + 1
  }

  /**
   * The slice of `content` from the first "<?xml" on, or None when the
   * marker does not occur (the program then stops with "No XML content found").
   */
  function ExtractDocument(content: string): (r: Option<string>)
    ensures r.None? <==> forall i :: !OccursAt(content, XmlMarker, i)
    ensures r.Some? ==> |r.value| <= |content| && content[|content| - |r.value|..] == r.value
    ensures r.Some? ==> XmlMarker <= r.value
    ensures r.Some? ==> forall i | 0 <= i < |content| - |r.value| :: !OccursAt(content, XmlMarker, i)
  {
    var idx := Index(content, XmlMarker);
    if idx == -1 then None else Some(content[idx..])
  }

  /** The first occurrence is unique: an occurrence with none before it is what Index finds. */
  lemma IndexIsFirst(s: string, pat: string, k: int)
    requires OccursAt(s, pat, k)
    requires forall i | 0 <= i < k :: !OccursAt(s, pat, i)
    ensures Index(s, pat) == k
  {
  }

  /** Extraction is idempotent: the extracted document extracts to itself. */
  lemma ExtractIdempotent(content: string)
    requires ExtractDocument(content).Some?
    ensures ExtractDocument(ExtractDocument(content).value) == ExtractDocument(content)
  {
    var doc := ExtractDocument(content).value;
    assert doc[0..|XmlMarker|] == XmlMarker;
    IndexIsFirst(doc, XmlMarker, 0);
    assert doc[0..] == doc;
  }

  /**
   * A prefix in which no marker starts is stripped: the file decodes exactly
   * as the document alone would.
   */
  lemma PrefixStripped(prefix: string, doc: string)
    requires XmlMarker <= doc
    requires forall i | 0 <= i < |prefix| :: !OccursAt(prefix + doc, XmlMarker, i)
    ensures ExtractDocument(prefix + doc) == Some(doc)
  {
    var content := prefix + doc;
    assert content[|prefix|..|prefix| + |XmlMarker|] == doc[..|XmlMarker|];
    IndexIsFirst(content, XmlMarker, |prefix|);
    assert content[|prefix|..] == doc;
  }

  /** In particular any prefix without a '<' is stripped. */
  lemma PrefixWithoutAngleStripped(prefix: string, doc: string)
    requires XmlMarker <= doc && '<' !in prefix
    ensures ExtractDocument(prefix + doc) == Some(doc)
  {
    forall i | 0 <= i < |prefix| ensures !OccursAt(prefix + doc, XmlMarker, i) {
      assert (prefix + doc)[i] == prefix[i];
    }
    PrefixStripped(prefix, doc);
  }

}
