/** Reading one history text page by page, with a literal search. */
module TextPages {
  import opened Options
  import opened ByteText
  import opened Greedy

  type Text = seq<Byte>

  const MAX_LIMIT: nat := 24 * 1024
  const MAX_NEEDLE: nat := 1024
  const PAGE_MATCHES: nat := 64

  datatype TextReadError = Item | Content | Offset | Limit | Search

  datatype TextPage = TextPage(
    offset: nat, end: nat, total: nat, bytes: Text, next: Option<nat>, matches: seq<nat>, nextSearch: Option<nat>)

  /** Each history item is its content blocks; a block without text is `None`. */
  type History = seq<seq<Option<Text>>>

  /** `read_text_page`. */
  function ReadPage(history: History, item: nat, content: nat, offset: nat, limit: nat, search: Option<Text>)
    : Result<TextPage, TextReadError>
  {
    if limit == 0 || limit > MAX_LIMIT then Err(Limit)
    else if item >= |history| then Err(Item)
    else if content >= |history[item]| || history[item][content].None? then Err(Content)
    else ReadText(history[item][content].value, offset, limit, search)
  }

  function ReadText(text: Text, offset: nat, limit: nat, search: Option<Text>): Result<TextPage, TextReadError> {
    if offset > |text| then Err(Offset)
    else if search.Some? && (search.value == [] || |search.value| > MAX_NEEDLE) then Err(Search)
    else
      var end := Min(offset + limit, |text|);
      var found := if search.Some? then Matches(text, search.value, offset) else [];
      Ok(TextPage(offset, end, |text|, text[offset..end],
                  if end < |text| then Some(end) else None,
                  found[..Min(|found|, PAGE_MATCHES)],
                  if |found| > PAGE_MATCHES then Some(found[PAGE_MATCHES]) else None))
  }

  /** The block exists and holds text. */
  predicate Readable(history: History, item: nat, content: nat) {
    item < |history| && content < |history[item]| && history[item][content].Some?
  }

  function TextAt(history: History, item: nat, content: nat): Text
    requires Readable(history, item, content)
  {
    history[item][content].value
  }

  /** A caller's choice of limit at each offset, always in range. */
  ghost predicate InRange(limits: nat -> nat) { forall k :: 0 < limits(k) <= MAX_LIMIT }

  /** Following `next` from an offset, asking for `limits(offset)` bytes each time. */
  ghost function FollowNext(history: History, item: nat, content: nat, offset: nat, limits: nat -> nat): Text
    requires Readable(history, item, content) && InRange(limits) && offset <= |TextAt(history, item, content)|
    decreases |TextAt(history, item, content)| - offset
  {
    var page := ReadPage(history, item, content, offset, limits(offset), None).value;
    page.bytes + match page.next case None => [] case Some(n) => FollowNext(history, item, content, n, limits)
  }

  /** Paged reading reassembles the exact bytes, whatever the limits. */
  lemma {:induction false} PagesReassemble(history: History, item: nat, content: nat, offset: nat, limits: nat -> nat)
    requires Readable(history, item, content) && InRange(limits) && offset <= |TextAt(history, item, content)|
    ensures FollowNext(history, item, content, offset, limits) == TextAt(history, item, content)[offset..]
    decreases |TextAt(history, item, content)| - offset
  {
    var text := TextAt(history, item, content);
    var page := ReadPage(history, item, content, offset, limits(offset), None).value;
    if page.next.Some? {
      PagesReassemble(history, item, content, page.end, limits);
      assert text[offset..] == text[offset..page.end] + text[page.end..];
    }
  }

  /** Following `next_search` from an offset with any limits, collecting every page's matches. */
  ghost function FollowSearch(history: History, item: nat, content: nat, offset: nat, needle: Text, limits: nat -> nat): seq<nat>
    requires Readable(history, item, content) && InRange(limits) && offset <= |TextAt(history, item, content)|
    requires 0 < |needle| <= MAX_NEEDLE
    decreases |TextAt(history, item, content)| - offset
  {
    var page := ReadPage(history, item, content, offset, limits(offset), Some(needle)).value;
    match page.nextSearch
    case None => page.matches
    case Some(n) =>
      ResumeAtMatch(TextAt(history, item, content), needle, offset, PAGE_MATCHES);
      page.matches + FollowSearch(history, item, content, n, needle, limits)
  }

  /** Paged searching yields exactly the one-shot list of matches, whatever the limits. */
  lemma {:induction false} SearchesReassemble(history: History, item: nat, content: nat, offset: nat, needle: Text, limits: nat -> nat)
    requires Readable(history, item, content) && InRange(limits) && offset <= |TextAt(history, item, content)|
    requires 0 < |needle| <= MAX_NEEDLE
    ensures FollowSearch(history, item, content, offset, needle, limits) == Matches(TextAt(history, item, content), needle, offset)
    decreases |TextAt(history, item, content)| - offset
  {
    var text := TextAt(history, item, content);
    var found := Matches(text, needle, offset);
    if |found| > PAGE_MATCHES {
      ResumeAtMatch(text, needle, offset, PAGE_MATCHES);
      SearchesReassemble(history, item, content, found[PAGE_MATCHES], needle, limits);
      assert found == found[..PAGE_MATCHES] + found[PAGE_MATCHES..];
    }
  }

  /** Paged searching finds every non-overlapping occurrence, in order, skipping none. */
  lemma SearchIsGreedy(history: History, item: nat, content: nat, offset: nat, needle: Text, limits: nat -> nat)
    requires Readable(history, item, content) && InRange(limits) && offset <= |TextAt(history, item, content)|
    requires 0 < |needle| <= MAX_NEEDLE
    ensures GreedyList(TextAt(history, item, content), needle, offset, FollowSearch(history, item, content, offset, needle, limits))
  {
    SearchesReassemble(history, item, content, offset, needle, limits);
    var _ := MatchesAreGreedy(TextAt(history, item, content), needle, offset);
  }

  /**
   Where a page is cut is immaterial: a read of `m + n` bytes fails as the read of `m` does, finds the
   same matches, and otherwise is the read of `m` followed by one of `n` from where it says to go on.
   */
  lemma ReadsSplit(history: History, item: nat, content: nat, offset: nat, m: nat, n: nat, search: Option<Text>)
    requires 0 < m && 0 < n && m + n <= MAX_LIMIT
    ensures var part, whole := ReadPage(history, item, content, offset, m, search), ReadPage(history, item, content, offset, m + n, search);
            && (part.Err? || whole.Err? ==> part == whole)
            && (part.Ok? && whole.Ok? ==>
                  && part.value.matches == whole.value.matches && part.value.nextSearch == whole.value.nextSearch
                  && match part.value.next
                     case None => part == whole
                     case Some(at) =>
                       var rest := ReadPage(history, item, content, at, n, None);
                       rest.Ok? && part.value.bytes + rest.value.bytes == whole.value.bytes && rest.value.next == whole.value.next)
  {
    if Readable(history, item, content) && offset + m < |TextAt(history, item, content)| {
      var text, end := TextAt(history, item, content), Min(offset + m + n, |TextAt(history, item, content)|);
      assert text[offset..end] == text[offset..offset + m] + text[offset + m..end];
    }
  }
}
