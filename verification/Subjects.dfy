/** How subjects spell geohashes character by character, and which subjects a wildcard pattern selects. */
module Subjects {
  import opened Text

  const ROOT_SUBJECT := "ais.decoded"
  const NO_POSITION := "ais.decoded.none"

  function Dotted(g: string): string {
    if g == "" then "" else Dotted(g[..|g| - 1]) + "." + [g[|g| - 1]]
  }

  /** The subject of a message whose geohash is `g`; the empty hash has no position. */
  function Decoded(g: string): string {
    if g == "" then NO_POSITION else ROOT_SUBJECT + Dotted(g)
  }

  /** What to subscribe to for a prefix: everything below it, or its one cell if it is full length. */
  function DecodedPattern(prefix: string): string {
    if prefix == "" then ROOT_SUBJECT + ".>"
    else ROOT_SUBJECT + Dotted(prefix) + (if |prefix| < 4 then ".>" else "")
  }

  method AppendDotted(start: string, g: string) returns (s: string)
    ensures s == start + Dotted(g)
  {
    s := start;
    for i := 0 to |g|
      invariant s == start + Dotted(g[..i])
    {
      assert g[..i + 1][..i] == g[..i];
      s := s + ['.'];
      s := s + [g[i]];
    }
    assert g[..|g|] == g;
  }

  method BuildDecoded(g: string) returns (s: string)
    ensures s == Decoded(g)
  {
    if g == "" {
      return NO_POSITION;
    }
    s := AppendDotted(ROOT_SUBJECT, g);
  }

  method BuildDecodedPattern(prefix: string) returns (s: string)
    ensures s == DecodedPattern(prefix)
  {
    if prefix == "" {
      return "ais.decoded.>";
    }
    s := AppendDotted(ROOT_SUBJECT, prefix);
    if |prefix| < 4 {
      s := s + ".>";
    }
  }

  // --------------------------------------------------------- subject matching

  /** NATS matching: `*` stands for one token, a final `>` for one or more. */
  predicate TokensMatch(pattern: seq<string>, subject: seq<string>) {
    if pattern == [] then subject == []
    else if pattern == [">"] then subject != []
    else subject != [] && (pattern[0] == "*" || pattern[0] == subject[0]) && TokensMatch(pattern[1..], subject[1..])
  }

  predicate Matches(pattern: string, subject: string) {
    TokensMatch(Split(pattern, '.'), Split(subject, '.'))
  }

  // -------------------------------------------------------------- properties

  function Singles(g: string): seq<string> {
    if g == "" then [] else [[g[0]]] + Singles(g[1..])
  }

  /** Characters that are neither separators nor wildcards. */
  predicate Plain(g: string) {
    '.' !in g && '*' !in g && '>' !in g
  }

  lemma {:induction false} DottedFromFront(g: string)
    requires g != ""
    ensures Dotted(g) == "." + [g[0]] + Dotted(g[1..])
  {
    if |g| == 1 {
      assert g == [g[0]] && Dotted(g[..0]) == "";
    } else {
      DottedFromFront(g[..|g| - 1]);
      assert g[..|g| - 1][1..] == g[1..][..|g| - 2];
    }
  }

  lemma {:induction false} SplitDotted(head: string, g: string, tail: string)
    requires '.' !in head && '.' !in g && (tail == "" || tail[0] == '.')
    ensures Split(head + Dotted(g) + tail, '.') ==
            [head] + Singles(g) + (if tail == "" then [] else Split(tail[1..], '.'))
    decreases |g|
  {
    hide Split;
    if g == "" {
      if tail == "" {
        assert head + Dotted(g) + tail == head;
        SplitOne(head, '.');
      } else {
        assert head + Dotted(g) + tail == head + ['.'] + tail[1..];
        SplitCons(head, '.', tail[1..]);
      }
    } else {
      DottedFromFront(g);
      var rest := [g[0]] + Dotted(g[1..]) + tail;
      assert head + Dotted(g) + tail == head + ['.'] + rest;
      SplitCons(head, '.', rest);
      SplitDotted([g[0]], g[1..], tail);
    }
  }

  lemma RootTokens(rest: string)
    ensures Split(ROOT_SUBJECT + "." + rest, '.') == ["ais", "decoded"] + Split(rest, '.')
  {
    hide Split;
    assert ROOT_SUBJECT + "." + rest == "ais" + ['.'] + ("decoded" + ['.'] + rest);
    SplitCons("ais", '.', "decoded" + ['.'] + rest);
    SplitCons("decoded", '.', rest);
  }

  lemma DecodedTokens(g: string)
    requires Plain(g) && g != ""
    ensures Split(Decoded(g), '.') == ["ais", "decoded"] + Singles(g)
  {
    hide Split;
    DottedFromFront(g);
    var rest := [g[0]] + Dotted(g[1..]);
    assert Decoded(g) == ROOT_SUBJECT + "." + rest;
    RootTokens(rest);
    SplitDotted([g[0]], g[1..], "");
    assert rest + "" == rest;
  }

  function Tail(p: string): string { if |p| < 4 then ".>" else "" }

  function TailTokens(p: string): seq<string> { if |p| < 4 then [">"] else [] }

  lemma NonemptyPatternTokens(p: string)
    requires Plain(p) && 1 <= |p| <= 4
    ensures Split(DecodedPattern(p), '.') == ["ais", "decoded"] + (Singles(p) + TailTokens(p))
  {
    hide Split;
    hide Dotted;
    var rest := [p[0]] + Dotted(p[1..]) + Tail(p);
    PatternIsDotted(p);
    RootTokens(rest);
    SplitDotted([p[0]], p[1..], Tail(p));
    SplitOne(">", '.');
    SinglesCons(p);
    assert Split(rest, '.') == Singles(p) + TailTokens(p);
  }

  lemma EmptyPatternTokens()
    ensures Split(DecodedPattern(""), '.') == ["ais", "decoded"] + [">"]
  {
    hide Split;
    SplitOne(">", '.');
    assert DecodedPattern("") == ROOT_SUBJECT + "." + ">";
    RootTokens(">");
  }

  lemma PatternTokens(p: string)
    requires Plain(p) && |p| <= 4
    ensures Split(DecodedPattern(p), '.') == ["ais", "decoded"] + (Singles(p) + TailTokens(p))
  {
    hide Split;
    hide DecodedPattern;
    if p == "" {
      EmptyPatternTokens();
      assert Singles(p) + TailTokens(p) == [">"];
    } else {
      NonemptyPatternTokens(p);
    }
  }

  lemma SinglesCons(p: string)
    requires p != ""
    ensures [[p[0]]] + Singles(p[1..]) == Singles(p)
    ensures Tail(p) == "" || (Tail(p)[0] == '.' && Tail(p)[1..] == ">")
  {}

  lemma PatternIsDotted(p: string)
    requires 1 <= |p| <= 4
    ensures DecodedPattern(p) == ROOT_SUBJECT + "." + ([p[0]] + Dotted(p[1..]) + Tail(p))
  {
    DottedFromFront(p);
    assert ROOT_SUBJECT + Dotted(p) + Tail(p) == ROOT_SUBJECT + "." + ([p[0]] + Dotted(p[1..]) + Tail(p));
  }

  lemma {:induction false} SinglesMatch(p: string, g: string, open: bool)
    requires Plain(p) && |p| <= |g| && (open <==> |p| < |g|)
    ensures TokensMatch(Singles(p) + (if open then [">"] else []), Singles(g)) <==> p <= g
  {
    if p != "" {
      SinglesMatch(p[1..], g[1..], open);
      var tail := if open then [">"] else [];
      assert (Singles(p) + tail)[1..] == Singles(p[1..]) + tail;
      assert p <= g <==> p[0] == g[0] && p[1..] <= g[1..];
      assert [p[0]] == [g[0]] <==> p[0] == g[0];
      assert [p[0]] != "*" && [p[0]] != ">" by {
        assert p[0] in p && [p[0]][0] == p[0] && "*"[0] == '*' && ">"[0] == '>';
      }
    }
  }

  lemma MatchCons(token: string, pattern: seq<string>, subject: seq<string>)
    requires token != "*" && token != ">"
    ensures TokensMatch([token] + pattern, [token] + subject) <==> TokensMatch(pattern, subject)
  {
    assert ([token] + pattern)[0] != ">";
    assert ([token] + pattern)[1..] == pattern && ([token] + subject)[1..] == subject;
  }

  lemma HeadMatch(pattern: seq<string>, subject: seq<string>)
    ensures TokensMatch(["ais", "decoded"] + pattern, ["ais", "decoded"] + subject) <==> TokensMatch(pattern, subject)
  {
    assert |"ais"| == 3 && |"decoded"| == 7;
    assert ["ais", "decoded"] + pattern == ["ais"] + (["decoded"] + pattern);
    assert ["ais", "decoded"] + subject == ["ais"] + (["decoded"] + subject);
    MatchCons("ais", ["decoded"] + pattern, ["decoded"] + subject);
    MatchCons("decoded", pattern, subject);
  }

  /** A subscription made for prefix `p` receives a four-character cell's subject exactly when the
      cell's hash starts with `p`. */
  lemma PatternSelectsPrefix(p: string, g: string)
    requires Plain(p) && Plain(g) && |p| <= 4 && |g| == 4
    ensures Matches(DecodedPattern(p), Decoded(g)) <==> p <= g
  {
    DecodedTokens(g);
    PatternTokens(p);
    SinglesMatch(p, g, |p| < 4);
    HeadMatch(Singles(p) + TailTokens(p), Singles(g));
  }

  /** Of the patterns for prefixes, only the whole-world one also receives messages without a position. */
  lemma OnlyTheWorldPatternSelectsNoPosition(p: string)
    requires Plain(p) && |p| <= 4
    ensures Matches(DecodedPattern(p), NO_POSITION) <==> p == ""
  {
    PatternTokens(p);
    assert NO_POSITION == ROOT_SUBJECT + "." + "none";
    RootTokens("none");
    SplitOne("none", '.');
    var tail := Singles(p) + TailTokens(p);
    HeadMatch(tail, ["none"]);
    if p != "" {
      FirstTokenIsNotNone(p, tail);
    }
  }

  lemma FirstTokenIsNotNone(p: string, tail: seq<string>)
    requires Plain(p) && p != "" && tail == Singles(p) + TailTokens(p)
    ensures !TokensMatch(tail, ["none"])
  {
    assert p[0] in p && tail[0] == [p[0]] && |"none"| == 4;
    assert tail[0][0] != '*' && tail[0][0] != '>';
  }
}
