// src/components/TagPicker.js: the comma-separated tag field, its
// suggestion list and the tags it hands back to the editor.
//
// The DOM input is modelled by its text `input`; whether it has focus is a
// parameter of every operation that re-renders the suggestions.
module TagPicker {
  import opened Wrappers
  import Text
  import Seqs

  /** Tags shown at most in the suggestion list. */
  const SuggestionLimit := 8
  /** The separator `join(', ')` puts between tags. */
  const Separator := ", "

  /** A tag the field can show and read back: no comma, no white space at either end, not empty. */
  predicate Clean(t: string)
  {
    t != [] && ',' !in t && !Text.IsSpace(t[0]) && !Text.IsSpace(t[|t| - 1])
  }

  /** `segments.map((tag) => tag.trim()).filter(Boolean)`. */
  function ParseSegments(segments: seq<string>): (r: seq<string>)
    ensures |r| <= |segments|
    ensures forall k :: 0 <= k < |r| ==> r[k] != []
  {
    if |segments| == 0 then []
    else
      var t := Text.Trim(segments[0]);
      if t != [] then [t] + ParseSegments(segments[1..]) else ParseSegments(segments[1..])
  }

  /** A trimmed segment without a comma is a clean tag unless it is empty. */
  lemma TrimmedSegmentClean(segment: string)
    requires ',' !in segment && Text.Trim(segment) != []
    ensures Clean(Text.Trim(segment))
  {
    Text.TrimIsInfix(segment);
  }

  /** Parsing segments without commas gives clean tags only. */
  lemma {:induction false} ParseSegmentsClean(segments: seq<string>)
    requires forall j :: 0 <= j < |segments| ==> ',' !in segments[j]
    ensures forall k :: 0 <= k < |ParseSegments(segments)| ==> Clean(ParseSegments(segments)[k])
  {
    if |segments| > 0 {
      ParseSegmentsClean(segments[1..]);
      if Text.Trim(segments[0]) != [] {
        TrimmedSegmentClean(segments[0]);
      }
    }
  }

  lemma {:induction false} ParseSegmentsAppend(a: seq<string>, b: seq<string>)
    ensures ParseSegments(a + b) == ParseSegments(a) + ParseSegments(b)
  {
    if |a| == 0 {
      assert a + b == b;
    } else {
      assert (a + b)[1..] == a[1..] + b;
      ParseSegmentsAppend(a[1..], b);
    }
  }

  /** `value.split(',').map(trim).filter(Boolean)`: the tags typed into the field. */
  function InputTags(value: string): (r: seq<string>)
  {
    ParseSegments(Text.Split(value, ','))
  }

  /** Every tag read from the field is clean. */
  lemma InputTagsClean(value: string)
    ensures forall k :: 0 <= k < |InputTags(value)| ==> Clean(InputTags(value)[k])
  {
    ParseSegmentsClean(Text.Split(value, ','));
  }

  /** One comma-free segment of the field as a filter term: trimmed and lower-cased. */
  function Term(segment: string): (r: string)
    ensures ',' !in segment ==> ',' !in r
  {
    Text.TrimIsInfix(segment);
    var r := Text.Lower(Text.Trim(segment));
    assert ',' !in segment ==> forall i :: 0 <= i < |r| ==> r[i] != ',' by {
      forall i | 0 <= i < |r|
        ensures r[i] == Text.LowerChar(Text.Trim(segment)[i]) && Text.Trim(segment)[i] in segment
      {
      }
    }
    r
  }

  /** `#getLastToken`: the text after the last comma, trimmed and lower-cased. */
  function LastToken(value: string): (r: string)
    ensures ',' !in r
  {
    var segments := Text.Split(value, ',');
    Term(segments[|segments| - 1])
  }

  /** The last token is the text after the field's last comma, trimmed and lower-cased. */
  lemma LastTokenSpec(value: string)
    ensures LastToken(value) == Text.Lower(Text.Trim(value[Text.AfterLast(value, ',')..]))
  {
    var segments := Text.Split(value, ',');
    Text.SplitLast(value, ',');
    assert LastToken(value) == Term(segments[|segments| - 1]);
  }

  /** Splitting at the first separator of a text. */
  lemma SplitFirst(a: string, b: string, c: char)
    requires c !in a
    ensures Text.Split(a + [c] + b, c) == [a] + Text.Split(b, c)
  {
    var s := a + [c] + b;
    var i := Text.IndexOf(s, c);
    assert s[|a|] == c;
    assert s[..i] == a;
    assert s[i + 1..] == b;
  }

  /** A text without the separator is one segment. */
  lemma SplitNone(s: string, c: char)
    requires c !in s
    ensures Text.Split(s, c) == [s]
  {
    assert s[..Text.IndexOf(s, c)] == s;
  }

  /** The segments after the first, as `join(', ')` leaves them: each behind one space. */
  function Spaced(ts: seq<string>): (r: seq<string>)
    ensures |r| == |ts|
    ensures forall i :: 0 <= i < |ts| ==> r[i] == " " + ts[i]
  {
    seq(|ts|, i requires 0 <= i < |ts| => " " + ts[i])
  }

  /** One step of `SplitJoined`: the first tag, then the split of the rest behind its space. */
  lemma SplitJoinedStep(head: string, rest: string, restSplit: seq<string>)
    requires ',' !in head
    requires Text.Split(" " + rest, ',') == restSplit
    ensures Text.Split(head + Separator + rest, ',') == [head] + restSplit
  {
    assert head + Separator + rest == head + [','] + (" " + rest);
    SplitFirst(head, " " + rest, ',');
  }

  /** Splitting tags joined with `', '` on the comma gives each tag back, all but the first behind a space. */
  lemma {:induction false} SplitJoined(p: string, ts: seq<string>)
    requires ',' !in p && |ts| >= 1
    requires forall i :: 0 <= i < |ts| ==> ',' !in ts[i]
    ensures Text.Split(p + Text.Join(ts, Separator), ',') == [p + ts[0]] + Spaced(ts[1..])
    decreases |ts|
  {
    if |ts| == 1 {
      SplitNone(p + ts[0], ',');
      assert Spaced(ts[1..]) == [];
    } else {
      var tail := ts[1..];
      var rest := Text.Join(tail, Separator);
      assert Text.Split(" " + rest, ',') == Spaced(tail) by {
        SplitJoined(" ", tail);
        assert Spaced(tail) == [" " + tail[0]] + Spaced(tail[1..]);
      }
      assert p + Text.Join(ts, Separator) == (p + ts[0]) + Separator + rest;
      SplitJoinedStep(p + ts[0], rest, Spaced(tail));
    }
  }

  /** A clean tag survives `trim`, with or without the space `join` put before it. */
  lemma TrimClean(t: string)
    requires Clean(t)
    ensures Text.Trim(t) == t && Text.Trim(" " + t) == t
  {
    assert Text.LeadingSpaces(t) == 0;
    assert Text.TrailingSpaces(t) == 0;
    var s := " " + t;
    assert s[1..] == t;
    assert Text.LeadingSpaces(s) == 1;
    assert s[1..] == t;
  }

  lemma {:induction false} ParseSpaced(ts: seq<string>)
    requires forall i :: 0 <= i < |ts| ==> Clean(ts[i])
    ensures ParseSegments(Spaced(ts)) == ts
  {
    if |ts| > 0 {
      TrimClean(ts[0]);
      ParseSpaced(ts[1..]);
      assert Spaced(ts)[1..] == Spaced(ts[1..]);
    }
  }

  /** The segments of clean tags joined with `', '` parse back to the tags. */
  lemma ParseJoinedSegments(ts: seq<string>)
    requires |ts| > 0
    requires forall i :: 0 <= i < |ts| ==> Clean(ts[i])
    ensures ParseSegments([ts[0]] + Spaced(ts[1..])) == ts
  {
    var head := [ts[0]] + Spaced(ts[1..]);
    TrimClean(ts[0]);
    ParseSpaced(ts[1..]);
    assert head[1..] == Spaced(ts[1..]);
    assert ts == [ts[0]] + ts[1..];
  }

  /** The segment a trailing `', '` leaves trims to nothing and is dropped. */
  lemma ParseLoneSpace()
    ensures ParseSegments([" "]) == []
  {
    assert Text.Trim(" ") == "";
  }

  /**
   * Reading back what `setValue` shows: clean tags joined with `', '` and
   * parsed by `#handleInput` are the same tags, in the same order.
   */
  lemma {:induction false} InputTagsOfJoined(ts: seq<string>)
    requires forall i :: 0 <= i < |ts| ==> Clean(ts[i])
    ensures InputTags(Text.Join(ts, Separator)) == ts
  {
    if |ts| == 0 {
      SplitNone("", ',');
      assert Text.Trim("") == "";
    } else {
      SplitJoined("", ts);
      assert "" + Text.Join(ts, Separator) == Text.Join(ts, Separator);
      assert "" + ts[0] == ts[0];
      ParseJoinedSegments(ts);
    }
  }

  /** `tag.toLowerCase().includes(filter)` with the empty filter matching all. */
  predicate MatchesFilter(tag: string, normalizedFilter: string)
  {
    normalizedFilter == [] || Text.Contains(Text.Lower(tag), normalizedFilter)
  }

  /** A tag offered for `filterTerm`: not chosen yet, and matching the lower-cased filter. */
  function Offered(chosen: seq<string>, filterTerm: string): string -> bool
  {
    tag => tag !in chosen && MatchesFilter(tag, Text.Lower(filterTerm))
  }

  /** `#renderSuggestions` filtering: the first eight offered tags, in the order of the available tags. */
  function Suggestions(available: seq<string>, chosen: seq<string>, filterTerm: string): (r: seq<string>)
    ensures |r| <= SuggestionLimit
  {
    var matches := Seqs.Filter(available, Offered(chosen, filterTerm));
    if |matches| <= SuggestionLimit then matches else matches[..SuggestionLimit]
  }

  /**
   * Every suggestion is available, not chosen and matches the filter
   * case-insensitively; every such tag is suggested unless the list is full.
   */
  lemma SuggestionsSpec(available: seq<string>, chosen: seq<string>, filterTerm: string, tag: string)
    ensures var r := Suggestions(available, chosen, filterTerm);
            tag in r ==> tag in available && tag !in chosen && MatchesFilter(tag, Text.Lower(filterTerm))
    ensures var r := Suggestions(available, chosen, filterTerm);
            tag in available && tag !in chosen && MatchesFilter(tag, Text.Lower(filterTerm)) ==>
              tag in r || |r| == SuggestionLimit
  {
    var matches := Seqs.Filter(available, Offered(chosen, filterTerm));
    Seqs.FilterMembership(available, Offered(chosen, filterTerm), tag);
    if |matches| > SuggestionLimit && tag in matches[..SuggestionLimit] {
      var i :| 0 <= i < SuggestionLimit && matches[..SuggestionLimit][i] == tag;
      assert matches[i] == tag;
    }
  }

  /** An empty filter offers every tag not chosen yet. */
  lemma EmptyFilterOffersAll(available: seq<string>, chosen: seq<string>, tag: string)
    requires tag in available && tag !in chosen
    ensures tag in Suggestions(available, chosen, "") || |Suggestions(available, chosen, "")| == SuggestionLimit
  {
    SuggestionsSpec(available, chosen, "", tag);
  }

  /** The list on screen: the suggestions while the field has focus, nothing otherwise. */
  function Shown(focused: bool, available: seq<string>, chosen: seq<string>, filterTerm: string): (r: seq<string>)
    ensures !focused ==> r == []
    ensures focused ==> r == Suggestions(available, chosen, filterTerm)
  {
    if focused then Suggestions(available, chosen, filterTerm) else []
  }

  /** `prefixSegments.length ? `${prefixSegments.join(', ')}, ${tag}` : tag`, then `', '`. */
  function SelectedInput(prefix: seq<string>, tag: string): string
  {
    (if |prefix| > 0 then Text.Join(prefix, Separator) + Separator + tag else tag) + Separator
  }

  lemma {:induction false} JoinSnoc(ts: seq<string>, t: string)
    requires |ts| > 0
    ensures Text.Join(ts + [t], Separator) == Text.Join(ts, Separator) + Separator + t
    decreases |ts|
  {
    if |ts| == 1 {
      assert ts + [t] == [ts[0], t];
    } else {
      assert (ts + [t])[1..] == ts[1..] + [t];
      JoinSnoc(ts[1..], t);
    }
  }

  /** The text after a selection is the chosen tags joined, followed by the separator. */
  lemma SelectedInputJoins(prefix: seq<string>, tag: string)
    ensures SelectedInput(prefix, tag) == Text.Join(prefix + [tag], Separator) + Separator
  {
    if |prefix| > 0 {
      JoinSnoc(prefix, tag);
    } else {
      assert prefix + [tag] == [tag];
    }
  }

  /** The segments of the text after a selection: the chosen tags as `join` leaves them, then a lone space. */
  lemma SelectedSegments(prefix: seq<string>, tag: string)
    requires ',' !in tag
    requires forall i :: 0 <= i < |prefix| ==> ',' !in prefix[i]
    ensures var ts := prefix + [tag];
            Text.Split(SelectedInput(prefix, tag), ',') == ([ts[0]] + Spaced(ts[1..])) + [" "]
  {
    var ts := prefix + [tag];
    var all := ts + [""];
    SelectedInputJoins(prefix, tag);
    JoinSnoc(ts, "");
    assert SelectedInput(prefix, tag) == "" + Text.Join(all, Separator);
    SplitJoined("", all);
    assert all[0] == ts[0] && "" + ts[0] == ts[0];
    assert all[1..] == ts[1..] + [""];
    assert " " + "" == " ";
    assert Spaced(all[1..])[|ts| - 1] == " ";
    assert Spaced(all[1..]) == Spaced(ts[1..]) + [" "];
  }

  /** After choosing a clean suggestion, reading the field back gives the chosen tags. */
  lemma SelectionReadsBack(prefix: seq<string>, tag: string)
    requires Clean(tag)
    requires forall i :: 0 <= i < |prefix| ==> Clean(prefix[i])
    ensures InputTags(SelectedInput(prefix, tag)) == prefix + [tag]
  {
    var ts := prefix + [tag];
    SelectedSegments(prefix, tag);
    var head := [ts[0]] + Spaced(ts[1..]);
    ParseSegmentsAppend(head, [" "]);
    ParseLoneSpace();
    ParseJoinedSegments(ts);
  }

  /** After a selection the last token is empty, so the next suggestions are unfiltered. */
  lemma SelectionClearsFilter(prefix: seq<string>, tag: string)
    requires ',' !in tag
    requires forall i :: 0 <= i < |prefix| ==> ',' !in prefix[i]
    ensures LastToken(SelectedInput(prefix, tag)) == ""
  {
    SelectedSegments(prefix, tag);
    assert Text.Trim(" ") == "";
  }

  /** `Array.from(new Set(items))`: the first occurrence of each item, in order. */
  function Distinct(items: seq<string>): (r: seq<string>)
    ensures forall x :: x in r <==> x in items
    ensures forall i, j :: 0 <= i < j < |r| ==> r[i] != r[j]
  {
    if |items| == 0 then []
    else
      var d := Distinct(items[..|items| - 1]);
      var x := items[|items| - 1];
      assert items == items[..|items| - 1] + [x];
      if x in d then d else d + [x]
  }

  function Identity(s: string): string
  {
    s
  }

  /** `a.localeCompare(b, 'ru', { sensitivity: 'base' }) <= 0`: order ignoring letter case. */
  function BaseLe(): (string, string) -> bool
  {
    (a: string, b: string) => Text.StrLe(Text.Lower(a), Text.Lower(b))
  }

  lemma BaseLePreorder()
    ensures Seqs.TotalPreorder(BaseLe())
  {
    Text.StrLeTotalOrder();
  }

  function NonEmpty(): string -> bool
  {
    s => s != []
  }

  /** `setSuggestions` normalisation: drop empty tags, remove duplicates, sort ignoring case. */
  function NormalizeSuggestions(value: Option<seq<string>>): (r: seq<string>)
  {
    var items := if value.Some? then value.value else [];
    Seqs.Sort(Distinct(Seqs.Filter(items, NonEmpty())), BaseLe())
  }

  /**
   * The available tags are exactly the non-empty tags given, each once,
   * in case-insensitive order; a value that is not an array gives none.
   */
  lemma NormalizeSuggestionsSpec(value: Option<seq<string>>)
    ensures var r := NormalizeSuggestions(value);
            forall x :: x in r <==> value.Some? && x in value.value && x != []
    ensures Seqs.UniqueIds(NormalizeSuggestions(value), Identity)
    ensures Seqs.SortedBy(NormalizeSuggestions(value), BaseLe())
  {
    var items := if value.Some? then value.value else [];
    var d := Distinct(Seqs.Filter(items, NonEmpty()));
    var r := NormalizeSuggestions(value);
    forall x
      ensures x in r <==> value.Some? && x in value.value && x != []
    {
      assert x in r <==> x in multiset(r);
      assert x in d <==> x in multiset(d);
      Seqs.FilterMembership(items, NonEmpty(), x);
    }
    assert Seqs.UniqueIds(d, Identity);
    Seqs.PermutationKeepsUniqueIds(d, r, Identity);
    BaseLePreorder();
    Seqs.SortSorted(d, BaseLe());
  }

  /** The tag field: the chosen tags, the tags it may suggest, the text shown and the suggestions on screen. */
  class TagPicker {
    var tags: seq<string>
    var availableTags: seq<string>
    var input: string
    var shown: seq<string>

    constructor()
      ensures tags == [] && availableTags == [] && input == [] && shown == []
    {
      tags := [];
      availableTags := [];
      input := [];
      shown := [];
    }

    /** `#handleInput`: the user typed `value`; the tags are re-read and the suggestions filtered by the last token. */
    method HandleInput(value: string, focused: bool)
      modifies this
      ensures input == value && tags == InputTags(value) && availableTags == old(availableTags)
      ensures shown == Shown(focused, availableTags, tags, LastToken(value))
    {
      input := value;
      tags := InputTags(value);
      shown := Shown(focused, availableTags, tags, LastToken(input));
    }

    /** The focus listener: suggestions for the last token. */
    method Focus()
      modifies this`shown
      ensures shown == Suggestions(availableTags, tags, LastToken(input))
    {
      shown := Shown(true, availableTags, tags, LastToken(input));
    }

    /**
     * `#selectSuggestion(tag)`: keeps the non-empty segments before the last
     * comma, appends `tag`, and leaves the field ready for the next tag.
     */
    method SelectSuggestion(tag: string, focused: bool)
      modifies this
      ensures var segments := Text.Split(old(input), ',');
              var prefix := ParseSegments(segments[..|segments| - 1]);
              tags == prefix + [tag] && input == SelectedInput(prefix, tag)
      ensures availableTags == old(availableTags)
      ensures shown == Shown(focused, availableTags, tags, "")
    {
      var segments := Text.Split(input, ',');
      var prefix := ParseSegments(segments[..|segments| - 1]);
      tags := prefix + [tag];
      input := SelectedInput(prefix, tag);
      shown := Shown(focused, availableTags, tags, "");
    }

    /** `setValue(tags)`: a value that is not an array clears the tags; the field shows them joined. */
    method SetValue(value: Option<seq<string>>, focused: bool)
      modifies this
      ensures tags == (if value.Some? then value.value else [])
      ensures input == Text.Join(tags, Separator) && availableTags == old(availableTags)
      ensures shown == Shown(focused, availableTags, tags, LastToken(input))
    {
      tags := if value.Some? then value.value else [];
      input := Text.Join(tags, Separator);
      shown := Shown(focused, availableTags, tags, LastToken(input));
    }

    /** `setSuggestions(tags)`: the normalised list replaces the available tags. */
    method SetSuggestions(value: Option<seq<string>>, focused: bool)
      modifies this
      ensures availableTags == NormalizeSuggestions(value)
      ensures tags == old(tags) && input == old(input)
      ensures shown == Shown(focused, availableTags, tags, LastToken(input))
    {
      availableTags := NormalizeSuggestions(value);
      shown := Shown(focused, availableTags, tags, LastToken(input));
    }
  }
}
