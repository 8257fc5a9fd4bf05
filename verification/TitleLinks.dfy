/** Finding story links in a page (`find_title_links`) and listing them (`process_http_response`). */
module TitleLinks {
  import opened Prelude
  import opened Decimals

  datatype Link = Link(url: string, title: string)

  /** The literal parts of the pattern, around and between its two groups. */
  datatype Pattern = Pattern(open: string, middle: string, close: string)

  const STORY: Pattern := Pattern("<span class=\"titleline\"><a href=\"", "\">", "</a>")

  /** What the groups `[^"]+` and `[^<]+` admit. */
  predicate WellFormed(l: Link) {
    l.url != "" && '\"' !in l.url && l.title != "" && '<' !in l.title
  }

  /** The text of an occurrence. */
  function Text(p: Pattern, l: Link): string { p.open + (l.url + (p.middle + (l.title + p.close))) }

  /** `l` occurs at the front of `s`. */
  predicate Starts(p: Pattern, s: string, l: Link) { WellFormed(l) && Text(p, l) <= s }

  // --- Matching at one place ---

  /** How many characters come before the first `c`. */
  function Run(s: string, c: char): (n: nat)
    ensures n <= |s| && c !in s[..n] && (n < |s| ==> s[n] == c)
  {
    if s == [] || s[0] == c then 0
    else
      var n := Run(s[1..], c);
      assert s[..n + 1] == [s[0]] + s[1..][..n];
      n + 1
  }

  /** A run of characters other than `c`, at least one, and what follows. */
  function Group(s: string, c: char): Option<(string, string)> {
    var n := Run(s, c);
    if n == 0 then None else Some((s[..n], s[n..]))
  }

  function After(s: string, literal: string): Option<string> {
    if literal <= s then Some(s[|literal|..]) else None
  }

  /** The pattern's match at the front of `s`: each part must follow the other. */
  function Match(p: Pattern, s: string): Option<Link> {
    var a :- After(s, p.open);
    var url :- Group(a, '\"');
    var b :- After(url.1, p.middle);
    var title :- Group(b, '<');
    var c :- After(title.1, p.close);
    Some(Link(url.0, title.0))
  }

  lemma AfterExactly(s: string, literal: string, rest: string)
    ensures After(s, literal) == Some(rest) <==> s == literal + rest
  {
    if literal <= s { assert s == literal + s[|literal|..]; }
    if s == literal + rest { assert s[..|literal|] == literal && s[|literal|..] == rest; }
  }

  lemma {:induction false} RunOf(g: string, c: char, rest: string)
    requires c !in g && rest != "" && rest[0] == c
    ensures Run(g + rest, c) == |g|
  {
    if g == [] {
      assert g + rest == rest;
    } else {
      assert (g + rest)[1..] == g[1..] + rest;
      RunOf(g[1..], c, rest);
    }
  }

  lemma GroupExactly(s: string, c: char, g: string, rest: string)
    requires rest != "" && rest[0] == c
    ensures Group(s, c) == Some((g, rest)) <==> s == g + rest && g != "" && c !in g
  {
    if s == g + rest && g != "" && c !in g {
      RunOf(g, c, rest);
      assert s[..|g|] == g && s[|g|..] == rest;
    }
  }

  /** Each group is ended by the literal behind it. */
  predicate Delimited(p: Pattern) {
    p.middle != "" && p.middle[0] == '\"' && p.close != "" && p.close[0] == '<'
  }

  /** The matcher finds exactly the occurrence that starts here; so there is at most one. */
  lemma MatchExactly(p: Pattern, s: string, l: Link)
    requires Delimited(p)
    ensures Match(p, s) == Some(l) <==> Starts(p, s, l)
  {
    if Starts(p, s, l) { MatchComplete(p, s, l); }
    if Match(p, s) == Some(l) { MatchSound(p, s, l); }
  }

  lemma MatchComplete(p: Pattern, s: string, l: Link)
    requires Delimited(p) && Starts(p, s, l)
    ensures Match(p, s) == Some(l)
  {
    var rest := s[|Text(p, l)|..];
    var d := p.close + rest;
    var b := l.title + d;
    var m := p.middle + b;
    var a := l.url + m;
    TextThen(p, l, rest);
    assert s == Text(p, l) + rest;
    AfterExactly(s, p.open, a);
    GroupExactly(a, '\"', l.url, m);
    AfterExactly(m, p.middle, b);
    GroupExactly(b, '<', l.title, d);
    AfterExactly(d, p.close, rest);
  }

  lemma MatchSound(p: Pattern, s: string, l: Link)
    requires Match(p, s) == Some(l)
    ensures Starts(p, s, l)
  {
    var a := After(s, p.open).value;
    var url := Group(a, '\"').value;
    var b := After(url.1, p.middle).value;
    var title := Group(b, '<').value;
    var c := After(title.1, p.close).value;
    AfterExactly(s, p.open, a);
    AfterExactly(url.1, p.middle, b);
    AfterExactly(title.1, p.close, c);
    TextThen(p, l, c);
  }

  lemma TextThen(p: Pattern, l: Link, c: string)
    ensures Text(p, l) + c == p.open + (l.url + (p.middle + (l.title + (p.close + c))))
  {
    var t := l.title + p.close;
    var m := p.middle + t;
    var u := l.url + m;
    assert t + c == l.title + (p.close + c);
    assert m + c == p.middle + (t + c);
    assert u + c == l.url + (m + c);
    assert p.open + u + c == p.open + (u + c);
  }

  lemma UniqueOccurrence(p: Pattern, s: string, l: Link, k: Link)
    requires Delimited(p) && Starts(p, s, l) && Starts(p, s, k)
    ensures l == k
  {
    MatchExactly(p, s, l);
    MatchExactly(p, s, k);
  }

  // --- No two occurrences overlap ---

  lemma TextAt(l: Link)
    ensures var t := Text(STORY, l); var q := 33 + |l.url|; var r := q + 2 + |l.title|;
      && |t| == r + 4
      && (forall j | 0 <= j < 33 :: t[j] == STORY.open[j])
      && (forall j | 33 <= j < q :: t[j] == l.url[j - 33])
      && t[q] == '\"' && t[q + 1] == '>'
      && (forall j | q + 2 <= j < r :: t[j] == l.title[j - (q + 2)])
      && t[r] == '<' && t[r + 1] == '/' && t[r + 2] == 'a' && t[r + 3] == '>'
  {
    assert |STORY.open| == 33;
  }

  /** The opening text does not overlap itself: its second `<` is followed by `a` instead of `s`. */
  lemma OpeningShift(i: nat) returns (j: nat)
    requires 0 < i < 33
    ensures i + j < 33 == |STORY.open| && STORY.open[i + j] != STORY.open[j]
  {
    j := if i == 24 then 1 else 0;
  }

  /** A quote is the 13th character of the opening text and none before it; it is followed by `t`. */
  lemma OpeningQuote()
    ensures |STORY.open| == 33 && STORY.open[0] == '<' && STORY.open[1] == 's' && STORY.open[13] == 't'
    ensures forall j | 0 <= j < 13 :: STORY.open[j] == '\"' <==> j == 12
  {
  }

  /**
    Where the opening text, laid at `i` inside an occurrence, first goes wrong.  A link may hold the
    opening's first twelve characters, but then its closing quote is followed by `>` instead of `t`.
   */
  lemma Mismatch(s: string, l: Link, i: nat) returns (j: nat)
    requires Starts(STORY, s, l) && 0 < i < |Text(STORY, l)|
    ensures j < 33 && (i + j >= |s| || s[i + j] != STORY.open[j])
  {
    TextAt(l);
    var t := Text(STORY, l);
    assert forall k | 0 <= k < |t| :: s[k] == t[k];
    if i < 33 {
      j := OpeningShift(i);
    } else {
      j := MismatchBehind(s, l, i);
    }
  }

  lemma MismatchBehind(s: string, l: Link, i: nat) returns (j: nat)
    requires WellFormed(l) && 33 <= i < 33 + |l.url| + 2 + |l.title| + 4 <= |s|
    requires var q := 33 + |l.url|; var r := q + 2 + |l.title|;
      && (forall k | 33 <= k < q :: s[k] == l.url[k - 33]) && s[q] == '\"' && s[q + 1] == '>'
      && (forall k | q + 2 <= k < r :: s[k] == l.title[k - (q + 2)])
      && s[r] == '<' && s[r + 1] == '/' && s[r + 2] == 'a' && s[r + 3] == '>'
    ensures j < 33 && (i + j >= |s| || s[i + j] != STORY.open[j])
  {
    OpeningQuote();
    var q := 33 + |l.url|;
    var r := q + 2 + |l.title|;
    if i < q {
      j := if q - i == 12 then 13 else if q - i < 12 then q - i else 12;
      assert q - i > 12 ==> s[i + 12] in l.url;
    } else {
      j := if i == r then 1 else 0;
      assert q + 2 <= i < r ==> s[i] in l.title;
    }
  }

  /** Inside an occurrence no other one begins. */
  lemma NoOverlap(s: string, l: Link, i: nat)
    requires Starts(STORY, s, l) && 0 < i < |Text(STORY, l)|
    ensures Match(STORY, s[i..]) == None
  {
    var j := Mismatch(s, l, i);
    assert |STORY.open| == 33;
    assert i + j < |s| ==> s[i..][j] == s[i + j];
  }

  // --- The scan ---

  /** Every match in `s[from..]`, in page order, wherever it begins. */
  function AllMatches<T>(find: string -> Option<T>, s: string, from: nat): seq<T>
    decreases |s| - from
  {
    if from >= |s| then []
    else
      var m := find(s[from..]);
      (if m.Some? then [m.value] else []) + AllMatches(find, s, from + 1)
  }

  /** Nothing is found inside the first `n` characters but at their front. */
  ghost predicate Isolated<T>(find: string -> Option<T>, s: string, n: nat) {
    1 <= n <= |s| && forall i | 0 < i < n :: find(s[i..]).None?
  }

  ghost predicate NeverOverlaps<T>(find: string -> Option<T>, length: T -> nat) {
    forall s {:trigger find(s)} :: find(s).Some? ==> Isolated(find, s, length(find(s).value))
  }

  /** A stretch where nothing is found adds nothing. */
  lemma {:induction false} SkipStretch<T>(find: string -> Option<T>, s: string, from: nat, n: nat)
    requires from + n <= |s| && forall i | from <= i < from + n :: find(s[i..]).None?
    ensures AllMatches(find, s, from) == AllMatches(find, s, from + n)
    decreases n
  {
    if n > 0 { SkipStretch(find, s, from + 1, n - 1); }
  }

  /** Going on behind a match loses nothing. */
  lemma {:induction false} Jump<T>(find: string -> Option<T>, s: string, i: nat, n: nat)
    requires i < |s| && find(s[i..]).Some? && Isolated(find, s[i..], n)
    ensures i + n <= |s| && AllMatches(find, s, i) == [find(s[i..]).value] + AllMatches(find, s, i + n)
  {
    forall k | i + 1 <= k < i + n ensures find(s[k..]).None? { assert s[i..][k - i..] == s[k..]; }
    SkipStretch(find, s, i + 1, n - 1);
  }

  /** The scan goes on behind each match, as `captures_iter` does, and still loses none. */
  method Captures<T>(find: string -> Option<T>, length: T -> nat, s: string) returns (results: seq<T>)
    requires NeverOverlaps(find, length)
    ensures results == AllMatches(find, s, 0)
  {
    results := [];
    var i := 0;
    while i < |s|
      invariant i <= |s| && AllMatches(find, s, 0) == results + AllMatches(find, s, i)
      decreases |s| - i
    {
      var m := find(s[i..]);
      if m.Some? {
        var n := length(m.value);
        Jump(find, s, i, n);
        Associative(results, [m.value], AllMatches(find, s, i + n));
        results := results + [m.value];
        i := i + n;
      } else {
        SkipStretch(find, s, i, 1);
        i := i + 1;
      }
    }
  }

  /** The places where the entries were found. */
  function Places<T>(find: string -> Option<T>, s: string, from: nat): seq<nat>
    decreases |s| - from
  {
    if from >= |s| then [] else (if find(s[from..]).Some? then [from] else []) + Places(find, s, from + 1)
  }

  /** Each entry was found at its own place, and the places increase. */
  predicate Ordered<T(==)>(find: string -> Option<T>, s: string, from: nat, at: seq<nat>, all: seq<T>) {
    && |all| == |at|
    && (forall k | 0 <= k < |at| :: from <= at[k] < |s| && find(s[at[k]..]) == Some(all[k]))
    && (forall j, k | 0 <= j < k < |at| :: at[j] < at[k])
  }

  lemma OrderedCons<T>(find: string -> Option<T>, s: string, from: nat, at: seq<nat>, all: seq<T>, m: T)
    requires from < |s| && find(s[from..]) == Some(m) && Ordered(find, s, from + 1, at, all)
    ensures Ordered(find, s, from, [from] + at, [m] + all)
  {
    var at', all' := [from] + at, [m] + all;
    forall k | 0 <= k < |at'| ensures from <= at'[k] < |s| && find(s[at'[k]..]) == Some(all'[k]) {
      if k > 0 { assert at'[k] == at[k - 1] && all'[k] == all[k - 1]; }
    }
    forall j, k | 0 <= j < k < |at'| ensures at'[j] < at'[k] {
      assert at'[k] == at[k - 1] && (j > 0 ==> at'[j] == at[j - 1]);
    }
  }

  lemma {:induction false} InPageOrder<T>(find: string -> Option<T>, s: string, from: nat)
    ensures Ordered(find, s, from, Places(find, s, from), AllMatches(find, s, from))
    decreases |s| - from
  {
    if from < |s| {
      InPageOrder(find, s, from + 1);
      var m := find(s[from..]);
      if m.Some? {
        OrderedCons(find, s, from, Places(find, s, from + 1), AllMatches(find, s, from + 1), m.value);
      } else {
        assert Places(find, s, from) == Places(find, s, from + 1);
      }
    }
  }

  /** They are all places where something is found. */
  lemma {:induction false} EveryPlace<T>(find: string -> Option<T>, s: string, from: nat, i: nat)
    requires from <= i < |s| && find(s[i..]).Some?
    ensures i in Places(find, s, from)
    decreases |s| - from
  {
    if from < i { EveryPlace(find, s, from + 1, i); }
  }

  /** The pattern's match at the front of `s`. */
  function StoryAt(s: string): Option<Link> { Match(STORY, s) }

  function StoryLength(l: Link): nat { |Text(STORY, l)| }

  lemma StoriesNeverOverlap()
    ensures Delimited(STORY) && NeverOverlaps(StoryAt, StoryLength)
  {
    forall s | StoryAt(s).Some? ensures Isolated(StoryAt, s, StoryLength(StoryAt(s).value)) {
      var l := StoryAt(s).value;
      MatchExactly(STORY, s, l);
      forall i | 0 < i < StoryLength(l) ensures StoryAt(s[i..]).None? { NoOverlap(s, l, i); }
    }
  }

  function Stories(html: string): seq<Link> { AllMatches(StoryAt, html, 0) }

  method FindTitleLinks(html: string) returns (results: seq<Link>)
    ensures results == Stories(html)
  {
    StoriesNeverOverlap();
    results := Captures(StoryAt, StoryLength, html);
  }

  /** What is listed: every occurrence of the pattern, in page order, each exactly once. */
  lemma {:induction false} StoriesExactly(html: string)
    ensures var at, links := Places(StoryAt, html, 0), Stories(html);
      && |links| == |at|
      && (forall j, k | 0 <= j < k < |at| :: at[j] + StoryLength(links[j]) <= at[k])
      && (forall k | 0 <= k < |at| :: at[k] < |html| && Starts(STORY, html[at[k]..], links[k]))
      && (forall i: nat, l | i < |html| && Starts(STORY, html[i..], l) :: i in at)
  {
    InPageOrder(StoryAt, html, 0);
    var at, links := Places(StoryAt, html, 0), Stories(html);
    forall k | 0 <= k < |at| ensures Starts(STORY, html[at[k]..], links[k]) {
      MatchExactly(STORY, html[at[k]..], links[k]);
    }
    forall j, k | 0 <= j < k < |at| ensures at[j] + StoryLength(links[j]) <= at[k] {
      if at[k] < at[j] + StoryLength(links[j]) { SecondInside(html, at[j], links[j], at[k]); }
    }
    forall i: nat, l | i < |html| && Starts(STORY, html[i..], l) ensures i in at {
      MatchExactly(STORY, html[i..], l);
      EveryPlace(StoryAt, html, 0, i);
    }
  }

  lemma SecondInside(html: string, i: nat, l: Link, k: nat)
    requires i < k < |html| && k < i + StoryLength(l) && Starts(STORY, html[i..], l)
    ensures StoryAt(html[k..]).None?
  {
    NoOverlap(html[i..], l, k - i);
    assert html[i..][k - i..] == html[k..];
  }

  // --- The list for the user ---

  function Line(number: nat, l: Link): string { Digits(number) + ". " + l.title + " - " + l.url + "\n" }

  /** The lines of all links, numbered from 1. */
  function Numbered(links: seq<Link>): seq<string> {
    seq(|links|, i requires 0 <= i < |links| => Line(i + 1, links[i]))
  }

  method AppendLines(header: string, links: seq<Link>) returns (message: string)
    ensures message == header + Flatten(Numbered(links))
  {
    message := header;
    ghost var lines := Numbered(links);
    assert lines[..0] == [];
    for i := 0 to |links|
      invariant message == header + Flatten(lines[..i])
    {
      assert lines[..i + 1] == lines[..i] + [lines[i]];
      FlattenSnoc(lines[..i], lines[i]);
      message := message + Line(i + 1, links[i]);
    }
    assert lines[..|links|] == lines;
  }

  const HEADER: string := "Top Hacker News stories:\n"

  method ListStories(html: string) returns (message: string)
    ensures message == HEADER + Flatten(Numbered(Stories(html)))
  {
    var links := FindTitleLinks(html);
    message := AppendLines(HEADER, links);
  }
}
