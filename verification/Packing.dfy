/** Token-bounded packing of context: the loop of a compaction (sessions/compaction.py) and the
    assembly of a packet (agents/context.py). */
module Packing {
  import opened Prelude

  datatype Component = Component(name: Id, revision: Id, content: string, tokens: nat)

  function Tokens(content: string): nat {
    (|content| + 3) / 4
  }

  /** Four characters count as a token, and so does a rest. */
  lemma {:induction false} TokensRoundUp(content: string)
    ensures 4 * Tokens(content) >= |content| && (Tokens(content) > 0 ==> 4 * (Tokens(content) - 1) < |content|)
  {
  }

  /** The estimate that scrubbing computes anew. */
  predicate Measured(components: seq<Component>) {
    forall c :: c in components ==> c.tokens == Tokens(c.content)
  }

  function TotalTokens(components: seq<Component>): nat {
    if components == [] then 0 else components[0].tokens + TotalTokens(components[1..])
  }

  lemma {:induction false} TotalConcat(a: seq<Component>, b: seq<Component>)
    ensures TotalTokens(a + b) == TotalTokens(a) + TotalTokens(b)
  {
    if a == [] {
      assert a + b == b;
    } else {
      assert (a + b)[1..] == a[1..] + b;
      TotalConcat(a[1..], b);
    }
  }

  function Names(components: seq<Component>): (names: seq<Id>)
    ensures |names| == |components| && forall i :: 0 <= i < |names| ==> names[i] == components[i].name
  {
    seq(|components|, i requires 0 <= i < |components| => components[i].name)
  }

  // ----- Compaction -----

  datatype Packet = Packet(selected: seq<Component>, omissions: seq<Id>)

  /** The beginning of a component, for a number of tokens. */
  function Piece(c: Component, tokens: nat): Component {
    var content := if 4 * tokens <= |c.content| then c.content[..4 * tokens] else c.content;
    c.(content := content, tokens := Tokens(content))
  }

  /** Whole components while they fit; then a piece of the first that does not; nothing after that. */
  function Pack(components: seq<Component>, remaining: int): Packet {
    if components == [] then Packet([], [])
    else if remaining <= 0 then Packet([], Names(components))
    else if components[0].tokens <= remaining then
      var rest := Pack(components[1..], remaining - components[0].tokens);
      rest.(selected := [components[0]] + rest.selected)
    else Packet([Piece(components[0], remaining)], Names(components))
  }

  /** A piece that is cut takes up exactly what is left, and is a proper, non-empty beginning. */
  lemma {:induction false} PieceFillsUp(c: Component, left: nat)
    requires c.tokens == Tokens(c.content) && c.tokens > left > 0
    ensures Piece(c, left).tokens == left && Piece(c, left).content < c.content && Piece(c, left).content != ""
  {
    assert |c.content| > 4 * left;
    assert c.content[..4 * left] < c.content;
  }

  /** The selection is a whole prefix, or a whole prefix and a proper beginning of the next component
      that uses up the budget exactly; everything that is not whole is named as omitted; and the next
      component would not have fitted. */
  ghost predicate PackedWell(components: seq<Component>, budget: int, p: Packet, whole: nat) {
    && whole <= |components|
    && p.omissions == Names(components[whole..])
    && (whole < |components| ==> TotalTokens(components[..whole]) + components[whole].tokens > budget || TotalTokens(components[..whole]) >= budget)
    && (p.selected == components[..whole] ||
        (&& whole < |components| && budget > TotalTokens(components[..whole])
         && var piece := Piece(components[whole], budget - TotalTokens(components[..whole]));
            && p.selected == components[..whole] + [piece]
            && piece.content < components[whole].content && piece.content != ""
            && TotalTokens(p.selected) == budget))
    && TotalTokens(p.selected) <= if budget < 0 then 0 else budget
  }

  lemma {:induction false} PackIsBounded(components: seq<Component>, budget: int) returns (whole: nat)
    requires Measured(components)
    ensures PackedWell(components, budget, Pack(components, budget), whole)
  {
    hide PackedWell, Pack;
    whole := 0;
    if components == [] || budget <= 0 || components[0].tokens > budget {
      NothingWhole(components, budget);
    } else {
      var before := PackIsBounded(components[1..], budget - components[0].tokens);
      WholeFits(components, budget, before);
      whole := before + 1;
    }
  }

  lemma {:induction false} NothingWhole(components: seq<Component>, budget: int)
    requires Measured(components) && (components == [] || budget <= 0 || components[0].tokens > budget)
    ensures PackedWell(components, budget, Pack(components, budget), 0)
  {
    hide Names;
    assert components[..0] == [] && components[0..] == components;
    if components == [] {
      assert Names(components) == [];
    } else if budget > 0 {
      hide Piece;
      PieceFillsUp(components[0], budget);
      var piece := Piece(components[0], budget);
      assert [] + [piece] == [piece] && [piece][1..] == [];
    }
  }

  lemma {:induction false} WholeFits(components: seq<Component>, budget: int, before: nat)
    requires components != [] && 0 < budget && components[0].tokens <= budget
    requires PackedWell(components[1..], budget - components[0].tokens, Pack(components[1..], budget - components[0].tokens), before)
    ensures PackedWell(components, budget, Pack(components, budget), before + 1)
  {
    hide Names, Piece, Tokens;
    var c, rest := components[0], components[1..];
    var p := Pack(rest, budget - c.tokens);
    assert components[..before + 1] == [c] + rest[..before] && ([c] + rest[..before])[1..] == rest[..before];
    assert components[before + 1..] == rest[before..];
    assert ([c] + p.selected)[1..] == p.selected;
    if p.selected != rest[..before] {
      var piece := Piece(rest[before], budget - c.tokens - TotalTokens(rest[..before]));
      assert [c] + (rest[..before] + [piece]) == ([c] + rest[..before]) + [piece];
    }
  }

  /** What was packed so far, in front of what the rest comes to. */
  ghost function Onto(selected: seq<Component>, omissions: seq<Id>, rest: Packet): Packet {
    Packet(selected + rest.selected, omissions + rest.omissions)
  }

  lemma {:induction false} OntoOnto(selected: seq<Component>, omissions: seq<Id>, s: seq<Component>, o: seq<Id>, rest: Packet)
    ensures Onto(selected, omissions, Onto(s, o, rest)) == Onto(selected + s, omissions + o, rest)
    ensures Onto([], [], rest) == rest && selected + [] == selected && omissions + [] == omissions
  {
    assert selected + (s + rest.selected) == (selected + s) + rest.selected;
    assert omissions + (o + rest.omissions) == (omissions + o) + rest.omissions;
    assert [] + rest.selected == rest.selected && [] + rest.omissions == rest.omissions;
  }

  lemma {:induction false} PackStep(components: seq<Component>, i: nat, remaining: int)
    requires i < |components|
    ensures var c, rest := components[i], components[i + 1..];
      Pack(components[i..], remaining) ==
      if remaining <= 0 then Onto([], [c.name], Pack(rest, remaining))
      else if c.tokens <= remaining then Onto([c], [], Pack(rest, remaining - c.tokens))
      else Onto([Piece(c, remaining)], [c.name], Pack(rest, 0))
  {
    hide Piece;
    var c, rest := components[i], components[i + 1..];
    assert components[i..][0] == c && components[i..][1..] == rest;
    assert Names(components[i..]) == [c.name] + Names(rest);
    assert [] + Pack(rest, remaining - c.tokens).omissions == Pack(rest, remaining - c.tokens).omissions;
    if remaining > 0 {
      assert [Piece(c, remaining)] + [] == [Piece(c, remaining)];
    }
  }

  method Compact(components: seq<Component>, budget: int) returns (selected: seq<Component>, omissions: seq<Id>)
    requires Measured(components)
    ensures Packet(selected, omissions) == Pack(components, budget)
  {
    hide Pack, Piece, Onto;
    selected, omissions := [], [];
    var remaining := budget;
    assert components[0..] == components;
    OntoOnto([], [], [], [], Pack(components, budget));
    for i := 0 to |components|
      invariant Pack(components, budget) == Onto(selected, omissions, Pack(components[i..], remaining))
    {
      var c := components[i];
      PackStep(components, i, remaining);
      if remaining <= 0 {
        OntoOnto(selected, omissions, [], [c.name], Pack(components[i + 1..], remaining));
        omissions := omissions + [c.name];
      } else if c.tokens <= remaining {
        OntoOnto(selected, omissions, [c], [], Pack(components[i + 1..], remaining - c.tokens));
        selected := selected + [c];
        remaining := remaining - c.tokens;
      } else {
        OntoOnto(selected, omissions, [Piece(c, remaining)], [c.name], Pack(components[i + 1..], 0));
        assert c in components;
        PieceFillsUp(c, remaining);
        var truncated := Piece(c, remaining);
        if truncated.content != "" {
          selected := selected + [truncated];
        }
        omissions := omissions + [c.name];
        remaining := 0;
      }
    }
    PackEnd(components[|components|..], remaining, selected, omissions);
  }

  lemma {:induction false} PackEnd(components: seq<Component>, remaining: int, selected: seq<Component>, omissions: seq<Id>)
    requires components == []
    ensures Onto(selected, omissions, Pack(components, remaining)) == Packet(selected, omissions)
  {
    assert selected + [] == selected && omissions + [] == omissions;
  }

  // ----- Assembly -----

  type Key = (Id, Id)

  function KeyOf(c: Component): Key {
    (c.name, c.revision)
  }

  function Keys(components: seq<Component>): set<Key> {
    set c | c in components :: KeyOf(c)
  }

  function Scrubbed(c: Component, scrub: string -> string): Component {
    c.(content := scrub(c.content), tokens := Tokens(scrub(c.content)))
  }

  function ScrubEach(components: seq<Component>, scrub: string -> string): seq<Component> {
    if components == [] then [] else [Scrubbed(components[0], scrub)] + ScrubEach(components[1..], scrub)
  }

  datatype Filling = Filling(chosen: seq<Component>, omitted: seq<Component>)

  /** Each reference that was not seen before in turn, if it still fits. */
  function Fill(references: seq<Component>, seen: set<Key>, used: nat, limit: int, scrub: string -> string): Filling {
    if references == [] then Filling([], [])
    else if KeyOf(references[0]) in seen then Fill(references[1..], seen, used, limit, scrub)
    else
      var c := Scrubbed(references[0], scrub);
      var now := seen + {KeyOf(c)};
      if used + c.tokens <= limit then
        var rest := Fill(references[1..], now, used + c.tokens, limit, scrub);
        rest.(chosen := [c] + rest.chosen)
      else
        var rest := Fill(references[1..], now, used, limit, scrub);
        rest.(omitted := [c] + rest.omitted)
  }

  predicate DistinctKeys(components: seq<Component>) {
    components != [] ==> KeyOf(components[0]) !in Keys(components[1..]) && DistinctKeys(components[1..])
  }

  /** Every label and revision that was not seen before is placed exactly once, either chosen or
      omitted. */
  lemma {:induction false} EachIsPlacedOnce(references: seq<Component>, seen: set<Key>, used: nat, limit: int, scrub: string -> string)
    ensures var f := Fill(references, seen, used, limit, scrub);
      && Keys(f.chosen) !! Keys(f.omitted) && DistinctKeys(f.chosen) && DistinctKeys(f.omitted)
      && Keys(f.chosen) + Keys(f.omitted) == Keys(references) - seen
  {
    if references != [] {
      var first, rest := references[0], references[1..];
      KeysSplit(references);
      if KeyOf(first) in seen {
        EachIsPlacedOnce(rest, seen, used, limit, scrub);
      } else {
        var c := Scrubbed(first, scrub);
        var left := if used + c.tokens <= limit then used + c.tokens else used;
        var f := Fill(rest, seen + {KeyOf(c)}, left, limit, scrub);
        EachIsPlacedOnce(rest, seen + {KeyOf(c)}, left, limit, scrub);
        KeysSplit([c] + f.chosen);
        KeysSplit([c] + f.omitted);
        assert ([c] + f.chosen)[1..] == f.chosen && ([c] + f.omitted)[1..] == f.omitted;
      }
    }
  }

  lemma {:induction false} KeysSplit(components: seq<Component>)
    requires components != []
    ensures Keys(components) == {KeyOf(components[0])} + Keys(components[1..])
  {
    assert forall c :: c in components <==> c == components[0] || c in components[1..];
  }

  /** The total stays within the limit unless the required parts alone exceed it, and each omitted
      reference would still overflow at the end. */
  lemma {:induction false} FillIsMaximal(references: seq<Component>, seen: set<Key>, used: nat, limit: int, scrub: string -> string)
    ensures var f := Fill(references, seen, used, limit, scrub);
      && (f.chosen != [] ==> used + TotalTokens(f.chosen) <= limit)
      && (forall c :: c in f.omitted ==> used + TotalTokens(f.chosen) + c.tokens > limit)
  {
    if references != [] {
      var first, rest := references[0], references[1..];
      if KeyOf(first) in seen {
        FillIsMaximal(rest, seen, used, limit, scrub);
      } else {
        var c := Scrubbed(first, scrub);
        var left := if used + c.tokens <= limit then used + c.tokens else used;
        FillIsMaximal(rest, seen + {KeyOf(c)}, left, limit, scrub);
        var f := Fill(rest, seen + {KeyOf(c)}, left, limit, scrub);
        assert ([c] + f.chosen)[1..] == f.chosen;
        assert forall d :: d in [c] + f.omitted <==> d == c || d in f.omitted;
      }
    }
  }

  ghost function FillOnto(chosen: seq<Component>, omitted: seq<Component>, rest: Filling): Filling {
    Filling(chosen + rest.chosen, omitted + rest.omitted)
  }

  /** What is placed is a reference with its content scrubbed and its tokens counted anew. */
  lemma {:induction false} EachIsScrubbed(references: seq<Component>, seen: set<Key>, used: nat, limit: int, scrub: string -> string, c: Component)
    requires var f := Fill(references, seen, used, limit, scrub); c in f.chosen || c in f.omitted
    ensures exists r :: r in references && c.name == r.name && c.revision == r.revision
              && c.content == scrub(r.content) && c.tokens == Tokens(c.content)
  {
    if references != [] {
      var first, rest := references[0], references[1..];
      var placed := Scrubbed(first, scrub);
      if KeyOf(first) in seen {
        EachIsScrubbed(rest, seen, used, limit, scrub, c);
      } else if c != placed {
        EachIsScrubbed(rest, seen + {KeyOf(placed)}, if used + placed.tokens <= limit then used + placed.tokens else used, limit, scrub, c);
      } else {
        assert first in references;
      }
    }
  }

  lemma {:induction false} FillOntoOnto(chosen: seq<Component>, omitted: seq<Component>, c: seq<Component>, o: seq<Component>, rest: Filling)
    ensures FillOnto(chosen, omitted, FillOnto(c, o, rest)) == FillOnto(chosen + c, omitted + o, rest)
    ensures FillOnto([], [], rest) == rest && chosen + [] == chosen && omitted + [] == omitted
  {
    assert chosen + (c + rest.chosen) == (chosen + c) + rest.chosen;
    assert omitted + (o + rest.omitted) == (omitted + o) + rest.omitted;
    assert [] + rest.chosen == rest.chosen && [] + rest.omitted == rest.omitted;
  }

  lemma {:induction false} FillStep(references: seq<Component>, i: nat, seen: set<Key>, used: nat, limit: int, scrub: string -> string)
    requires i < |references|
    ensures var rest, c := references[i + 1..], Scrubbed(references[i], scrub);
      Fill(references[i..], seen, used, limit, scrub) ==
      if KeyOf(references[i]) in seen then Fill(rest, seen, used, limit, scrub)
      else if used + c.tokens <= limit then FillOnto([c], [], Fill(rest, seen + {KeyOf(references[i])}, used + c.tokens, limit, scrub))
      else FillOnto([], [c], Fill(rest, seen + {KeyOf(references[i])}, used, limit, scrub))
  {
    assert references[i..][0] == references[i] && references[i..][1..] == references[i + 1..];
    assert forall s: seq<Component> :: [] + s == s;
  }

  /** The required parts always; then the references in order. `omitted` are those that the packet
      names as left out. */
  method Assemble(required: seq<Component>, references: seq<Component>, limit: int, scrub: string -> string)
    returns (selected: seq<Component>, omitted: seq<Component>)
    ensures var parts := ScrubEach(required, scrub);
      var f := Fill(references, {}, TotalTokens(parts), limit, scrub);
      selected == parts + f.chosen && omitted == f.omitted
    ensures TotalTokens(selected) <= limit || selected == ScrubEach(required, scrub)
  {
    hide Fill, FillOnto, Scrubbed, ScrubEach;
    var parts := ScrubEach(required, scrub);
    var chosen: seq<Component> := [];
    selected, omitted := parts, [];
    var seen: set<Key> := {};
    ghost var all := Fill(references, {}, TotalTokens(parts), limit, scrub);
    assert references[0..] == references && parts + [] == parts;
    FillOntoOnto([], [], [], [], all);
    for i := 0 to |references|
      invariant selected == parts + chosen
      invariant all == FillOnto(chosen, omitted, Fill(references[i..], seen, TotalTokens(selected), limit, scrub))
    {
      var key := KeyOf(references[i]);
      FillStep(references, i, seen, TotalTokens(selected), limit, scrub);
      if key !in seen {
        var c := Scrubbed(references[i], scrub);
        var used := TotalTokens(selected);
        seen := seen + {key};
        if used + c.tokens <= limit {
          FillOntoOnto(chosen, omitted, [c], [], Fill(references[i + 1..], seen, used + c.tokens, limit, scrub));
          TotalConcat(selected, [c]);
          assert (parts + chosen) + [c] == parts + (chosen + [c]) && [c][1..] == [];
          selected, chosen := selected + [c], chosen + [c];
        } else {
          FillOntoOnto(chosen, omitted, [], [c], Fill(references[i + 1..], seen, used, limit, scrub));
          omitted := omitted + [c];
        }
      }
    }
    FillEnd(references[|references|..], seen, TotalTokens(selected), limit, scrub, chosen, omitted);
    FillIsMaximal(references, {}, TotalTokens(parts), limit, scrub);
    TotalConcat(parts, chosen);
  }

  lemma {:induction false} FillEnd(references: seq<Component>, seen: set<Key>, used: nat, limit: int, scrub: string -> string,
                chosen: seq<Component>, omitted: seq<Component>)
    requires references == []
    ensures FillOnto(chosen, omitted, Fill(references, seen, used, limit, scrub)) == Filling(chosen, omitted)
  {
    assert chosen + [] == chosen && omitted + [] == omitted;
  }
}
