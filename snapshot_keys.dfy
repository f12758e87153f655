/**
 * Identity and quality of elements across scroll-sampled snapshots: the
 * dedupe key that decides which elements are "the same", and the quality
 * tuple that decides which of them is kept.
 */
module SnapshotKeys {
  import opened Wrappers
  import opened Text
  import opened Models

  /** Longest text prefix that takes part in a key. */
  const KEY_TEXT_LEN: nat := 120

  /** The tagged tuples `_dedupe_key` returns, one constructor per tag. */
  datatype DedupeKey =
    | HrefKey(href: string)
    | RoleNameKey(role: string, name: string)
    | RoleTextDocYKey(role: string, text: string, bucket: int)
    | RoleTextKey(role: string, text: string)
    | RoleDocYKey(role: string, bucket: int)
    | IdKey(id: int)

  /** Whitespace normalisation of an optional string, empty when unset. */
  function NormalizedOpt(s: Option<string>): string {
    NormalizeWs(s.GetOr(""))
  }

  /** The 10-pixel band a document offset falls in (floor division). */
  function DocYBucket(y: int): (b: int)
    ensures b * 10 <= y < b * 10 + 10
  {
    y / 10
  }

  /** `_dedupe_key(el)` */
  function KeyOf(el: Element): DedupeKey {
    var href := Strip(el.href.GetOr(""));
    if href != "" then HrefKey(href)
    else
      var name := NormalizedOpt(el.name);
      if name != "" then RoleNameKey(el.role, name)
      else
        var text := NormalizedOpt(el.text);
        if text != "" then
          if el.docY.Some? then RoleTextDocYKey(el.role, Take(text, KEY_TEXT_LEN), DocYBucket(el.docY.value))
          else RoleTextKey(el.role, Take(text, KEY_TEXT_LEN))
        else if el.docY.Some? then RoleDocYKey(el.role, DocYBucket(el.docY.value))
        else IdKey(el.id)
  }

  /** Each field counts as present when it is non-blank. */
  predicate HasHref(el: Element) { !AllSpace(el.href.GetOr("")) }
  predicate HasName(el: Element) { !AllSpace(el.name.GetOr("")) }
  predicate HasText(el: Element) { !AllSpace(el.text.GetOr("")) }

  /**
   * The precedence chain of the key, stated over which fields are blank:
   * a non-blank href wins, then a non-blank name, then non-blank text
   * (with the doc_y band when there is one), then the doc_y band alone,
   * and the element id only when everything else is missing.
   */
  lemma KeyPrecedence(el: Element)
    ensures KeyOf(el).HrefKey? <==> HasHref(el)
    ensures KeyOf(el).RoleNameKey? <==> !HasHref(el) && HasName(el)
    ensures KeyOf(el).RoleTextDocYKey? <==> !HasHref(el) && !HasName(el) && HasText(el) && el.docY.Some?
    ensures KeyOf(el).RoleTextKey? <==> !HasHref(el) && !HasName(el) && HasText(el) && el.docY.None?
    ensures KeyOf(el).RoleDocYKey? <==> !HasHref(el) && !HasName(el) && !HasText(el) && el.docY.Some?
    ensures KeyOf(el).IdKey? <==> !HasHref(el) && !HasName(el) && !HasText(el) && el.docY.None?
  {
    StripEmptyIffAllSpace(el.href.GetOr(""));
    NormalizeWsEmptyIffAllSpace(el.name.GetOr(""));
    NormalizeWsEmptyIffAllSpace(el.text.GetOr(""));
  }

  /**
   * What a key carries: roles verbatim, keyed text cut to at most 120
   * characters of the normalised text, and the doc_y band of the element.
   */
  lemma KeyContents(el: Element)
    ensures KeyOf(el).HrefKey? ==> KeyOf(el).href == Strip(el.href.GetOr("")) && KeyOf(el).href != ""
    ensures KeyOf(el).RoleNameKey? ==> KeyOf(el).role == el.role && KeyOf(el).name == NormalizedOpt(el.name)
    ensures KeyOf(el).RoleTextDocYKey? || KeyOf(el).RoleTextKey? ==>
      && KeyOf(el).role == el.role
      && |KeyOf(el).text| <= KEY_TEXT_LEN
      && KeyOf(el).text <= NormalizedOpt(el.text)
      && KeyOf(el).text != ""
    ensures KeyOf(el).RoleTextDocYKey? || KeyOf(el).RoleDocYKey? ==>
      KeyOf(el).role == el.role && el.docY.Some? &&
      KeyOf(el).bucket * 10 <= el.docY.value < KeyOf(el).bucket * 10 + 10
    ensures KeyOf(el).IdKey? ==> KeyOf(el).id == el.id
  {
  }

  /**
   * Two text-only elements of the same role whose normalised texts agree
   * on their first 120 characters and whose offsets lie in the same band
   * are merged as one, wherever each sample saw them.
   */
  lemma SameBandSameKey(a: Element, b: Element)
    requires !HasHref(a) && !HasHref(b) && !HasName(a) && !HasName(b)
    requires a.role == b.role
    requires Take(NormalizedOpt(a.text), KEY_TEXT_LEN) == Take(NormalizedOpt(b.text), KEY_TEXT_LEN)
    requires a.docY.Some? && b.docY.Some? && a.docY.value / 10 == b.docY.value / 10
    ensures KeyOf(a) == KeyOf(b)
  {
    StripEmptyIffAllSpace(a.href.GetOr(""));
    StripEmptyIffAllSpace(b.href.GetOr(""));
    NormalizeWsEmptyIffAllSpace(a.name.GetOr(""));
    NormalizeWsEmptyIffAllSpace(b.name.GetOr(""));
    var ta, tb := NormalizedOpt(a.text), NormalizedOpt(b.text);
    assert ta == "" <==> tb == "" by {
      assert ta == "" <==> Take(ta, KEY_TEXT_LEN) == "";
      assert tb == "" <==> Take(tb, KEY_TEXT_LEN) == "";
    }
    assert DocYBucket(a.docY.value) == DocYBucket(b.docY.value);
  }

  // ---------------------------------------------------------------------------
  // quality

  /** The quality of an element: importance, then whether it has an href, text, a name and a document offset. */
  datatype Quality = Quality(importance: int, href: int, text: int, name: int, docY: int)

  function Flag(b: bool): int { if b then 1 else 0 }

  function QualityOf(el: Element): Quality {
    Quality(
      el.importance,
      Flag(Strip(el.href.GetOr("")) != ""),
      Flag(NormalizedOpt(el.text) != ""),
      Flag(NormalizedOpt(el.name) != ""),
      Flag(el.docY.Some?))
  }

  /** Python's tuple `a > b`: lexicographic, strict. */
  predicate Better(a: Quality, b: Quality) {
    || a.importance > b.importance
    || (a.importance == b.importance && a.href > b.href)
    || (a.importance == b.importance && a.href == b.href && a.text > b.text)
    || (a.importance == b.importance && a.href == b.href && a.text == b.text && a.name > b.name)
    || (a.importance == b.importance && a.href == b.href && a.text == b.text && a.name == b.name && a.docY > b.docY)
  }

  /** `Better` is a strict total order: irreflexive, transitive, and any two distinct tuples compare. */
  lemma BetterIsStrictTotalOrder(a: Quality, b: Quality, c: Quality)
    ensures !Better(a, a)
    ensures Better(a, b) && Better(b, c) ==> Better(a, c)
    ensures a != b ==> Better(a, b) || Better(b, a)
    ensures !(Better(a, b) && Better(b, a))
  {
  }

  /**
   * Importance dominates; at equal importance an element with a non-blank
   * href beats one without, whatever else either has.
   */
  lemma ImportanceThenHref(a: Element, b: Element)
    ensures a.importance > b.importance ==> Better(QualityOf(a), QualityOf(b))
    ensures a.importance == b.importance && HasHref(a) && !HasHref(b) ==> Better(QualityOf(a), QualityOf(b))
  {
    StripEmptyIffAllSpace(a.href.GetOr(""));
    StripEmptyIffAllSpace(b.href.GetOr(""));
  }
}
