/** `%VAR%` expansion in file descriptor paths. */
module ExpandEnv {
  import opened Wrappers
  import opened Text

  /** A path read as pieces: text, a variable reference, and a percent sign that starts none. */
  datatype Piece = Plain(text: string) | Ref(name: string) | Percent

  /** The pieces of a path, read from the left. */
  function Pieces(s: string): seq<Piece>
    decreases |s|
  {
    var k := IndexOf(s, '%');
    if k == |s| then [Plain(s)]
    else
      var (piece, left) := Head(s[k + 1..]);
      [Plain(s[..k])] + ([piece] + Pieces(left))
  }

  /** A reference is a nonempty name between percent signs; text holds none. */
  predicate WellFormed(p: Piece) {
    match p
    case Plain(text) => '%' !in text
    case Ref(name) => name != [] && '%' !in name
    case Percent => true
  }

  lemma {:induction false} PiecesWellFormed(s: string)
    ensures forall i :: 0 <= i < |Pieces(s)| ==> WellFormed(Pieces(s)[i])
    decreases |s|
  {
    var k := IndexOf(s, '%');
    if k < |s| {
      var (piece, left) := Head(s[k + 1..]);
      PiecesWellFormed(left);
      assert WellFormed(piece) && WellFormed(Plain(s[..k]));
      assert Pieces(s) == [Plain(s[..k])] + ([piece] + Pieces(left));
    }
  }

  /** The text a piece was written as. */
  function Source(p: Piece): string {
    match p
    case Plain(text) => text
    case Ref(name) => "%" + name + "%"
    case Percent => "%"
  }

  function SourceAll(ps: seq<Piece>): string {
    if ps == [] then "" else Source(ps[0]) + SourceAll(ps[1..])
  }

  /** A known name gives its value, anything else stays as written. */
  function Value(lookup: string -> Option<string>, p: Piece): string {
    if p.Ref? && lookup(p.name).Some? then lookup(p.name).value else Source(p)
  }

  function ValueAll(lookup: string -> Option<string>, ps: seq<Piece>): string {
    if ps == [] then "" else Value(lookup, ps[0]) + ValueAll(lookup, ps[1..])
  }

  lemma SourceCons(p: Piece, ps: seq<Piece>)
    ensures SourceAll([p] + ps) == Source(p) + SourceAll(ps)
  {
    assert ([p] + ps)[1..] == ps;
  }

  lemma ValueCons(lookup: string -> Option<string>, p: Piece, ps: seq<Piece>)
    ensures ValueAll(lookup, [p] + ps) == Value(lookup, p) + ValueAll(lookup, ps)
  {
    assert ([p] + ps)[1..] == ps;
  }

  /** The piece a percent sign starts, given what follows it, and what is left. */
  function Head(after: string): (Piece, string) {
    var end := IndexOf(after, '%');
    if 0 < end < |after| then (Ref(after[..end]), after[end + 1..]) else (Percent, after)
  }

  /** The piece at the first percent sign, and what is left. */
  function Cut(s: string): (Piece, string)
    requires '%' in s
  {
    Head(s[IndexOf(s, '%') + 1..])
  }

  lemma SplitAtIndex(s: string, k: nat)
    requires k < |s|
    ensures s == s[..k] + ([s[k]] + s[k + 1..])
  {
  }

  lemma RefText(name: string, left: string)
    ensures "%" + (name + ("%" + left)) == "%" + name + "%" + left
  {
  }

  lemma HeadSource(after: string)
    ensures "%" + after == Source(Head(after).0) + Head(after).1
  {
    var end := IndexOf(after, '%');
    if 0 < end < |after| {
      SplitAtIndex(after, end);
      assert [after[end]] == "%";
      RefText(after[..end], after[end + 1..]);
    }
  }

  lemma CutSource(s: string)
    requires '%' in s
    ensures s == s[..IndexOf(s, '%')] + (Source(Cut(s).0) + Cut(s).1)
  {
    var k := IndexOf(s, '%');
    var after := s[k + 1..];
    SplitAtIndex(s, k);
    assert [s[k]] == "%";
    HeadSource(after);
    assert Cut(s) == Head(after);
  }

  lemma PiecesCut(s: string)
    requires '%' in s
    ensures Pieces(s) == [Plain(s[..IndexOf(s, '%')])] + ([Cut(s).0] + Pieces(Cut(s).1))
  {
  }

  /** Reading a path as pieces loses nothing. */
  lemma {:induction false} PiecesAreThePath(s: string)
    ensures SourceAll(Pieces(s)) == s
    decreases |s|
  {
    if '%' in s {
      PiecesCut(s);
      CutSource(s);
      PiecesAreThePath(Cut(s).1);
      SourceCons(Cut(s).0, Pieces(Cut(s).1));
      SourceCons(Plain(s[..IndexOf(s, '%')]), [Cut(s).0] + Pieces(Cut(s).1));
    } else {
      assert Pieces(s) == [Plain(s)] + [];
      SourceCons(Plain(s), []);
    }
  }

  lemma ValueOfCut(lookup: string -> Option<string>, s: string)
    requires '%' in s
    ensures ValueAll(lookup, Pieces(s))
         == s[..IndexOf(s, '%')] + (Value(lookup, Cut(s).0) + ValueAll(lookup, Pieces(Cut(s).1)))
  {
    PiecesCut(s);
    ValueCons(lookup, Cut(s).0, Pieces(Cut(s).1));
    ValueCons(lookup, Plain(s[..IndexOf(s, '%')]), [Cut(s).0] + Pieces(Cut(s).1));
  }

  lemma ValueOfPlain(lookup: string -> Option<string>, s: string)
    requires '%' !in s
    ensures ValueAll(lookup, Pieces(s)) == s
  {
    assert Pieces(s) == [Plain(s)] + [];
    ValueCons(lookup, Plain(s), []);
  }

  lemma Regroup(a: string, b: string, c: string, d: string)
    ensures a + (b + (c + d)) == a + b + c + d
  {
  }

  /** The scanning loop replaces exactly the known names among the pieces. */
  method Expand(path: string, lookup: string -> Option<string>) returns (out: string)
    ensures out == ValueAll(lookup, Pieces(path))
  {
    out := "";
    var rest := path;
    var start := IndexOf(rest, '%');
    while start < |rest|
      invariant start == IndexOf(rest, '%')
      invariant ValueAll(lookup, Pieces(path)) == out + ValueAll(lookup, Pieces(rest))
      decreases |rest|
    {
      ValueOfCut(lookup, rest);
      ghost var piece, left := Cut(rest).0, Cut(rest).1;
      Regroup(out, rest[..start], Value(lookup, piece), ValueAll(lookup, Pieces(left)));
      out := out + rest[..start];
      ghost var was := out;
      var after := rest[start + 1..];
      var end := IndexOf(after, '%');
      if 0 < end < |after| {
        var name := after[..end];
        var value := lookup(name);
        if value.Some? {
          out := out + value.value;
        } else {
          out := out + ("%" + name + "%");
        }
        rest := after[end + 1..];
      } else {
        out := out + "%";
        rest := after;
      }
      assert rest == left && out == was + Value(lookup, piece);
      start := IndexOf(rest, '%');
    }
    ValueOfPlain(lookup, rest);
    out := out + rest;
  }

  /** A path with no known name in it is left as written, whatever percent signs it holds. */
  lemma UnknownLeftAsWritten(lookup: string -> Option<string>, s: string)
    requires forall i :: 0 <= i < |Pieces(s)| && Pieces(s)[i].Ref? ==> lookup(Pieces(s)[i].name).None?
    ensures ValueAll(lookup, Pieces(s)) == s
  {
    UnknownPieces(lookup, Pieces(s));
    PiecesAreThePath(s);
  }

  lemma {:induction false} UnknownPieces(lookup: string -> Option<string>, ps: seq<Piece>)
    requires forall i :: 0 <= i < |ps| && ps[i].Ref? ==> lookup(ps[i].name).None?
    ensures ValueAll(lookup, ps) == SourceAll(ps)
    decreases |ps|
  {
    if ps != [] { UnknownPieces(lookup, ps[1..]); }
  }

  lemma CutOfRef(name: string, left: string)
    requires name != [] && '%' !in name
    ensures var s := "%" + (name + "%" + left); IndexOf(s, '%') == 0 && Cut(s) == (Ref(name), left)
  {
    var after := name + "%" + left;
    assert ("%" + after)[1..] == after;
    assert after[|name|] == '%' && forall i :: 0 <= i < |name| ==> after[i] == name[i];
    assert IndexOf(after, '%') == |name|;
    assert after[..|name|] == name && after[|name| + 1..] == left;
  }

  /** A doubled percent sign does not end the scan: what follows the first one is read as before. */
  lemma ScanGoesOn(lookup: string -> Option<string>, left: string)
    ensures ValueAll(lookup, Pieces("%%" + left)) == "%" + ValueAll(lookup, Pieces("%" + left))
  {
    var s := "%%" + left;
    assert s[1..] == "%" + left && s[..0] == "";
    assert Cut(s) == (Percent, "%" + left);
    ValueOfCut(lookup, s);
  }

  /** A known name is replaced wherever a percent sign that starts no earlier reference opens it. */
  lemma KnownIsReplaced(lookup: string -> Option<string>, name: string, value: string, left: string)
    requires name != [] && '%' !in name && lookup(name) == Some(value)
    ensures ValueAll(lookup, Pieces("%" + (name + "%" + left))) == value + ValueAll(lookup, Pieces(left))
  {
    var s := "%" + (name + "%" + left);
    CutOfRef(name, left);
    ValueOfCut(lookup, s);
    assert s[..0] == "";
  }

  // ---------------------------------------------------------------- what the comment says

  /** Expansion that ends at a percent sign that starts no reference and keeps the rest as written. */
  function Stopping(lookup: string -> Option<string>, s: string): string
    decreases |s|
  {
    if '%' !in s || Cut(s).0.Percent? then s
    else s[..IndexOf(s, '%')] + (Value(lookup, Cut(s).0) + Stopping(lookup, Cut(s).1))
  }

  /** What follows the first percent sign that starts no reference. */
  function AfterLone(s: string): Option<string>
    decreases |s|
  {
    if '%' !in s then None else if Cut(s).0.Percent? then Some(Cut(s).1) else AfterLone(Cut(s).1)
  }

  predicate Agree(lookup: string -> Option<string>, s: string) {
    ValueAll(lookup, Pieces(s)) == Stopping(lookup, s)
  }

  lemma CancelFront(a: string, b: string, x: string, y: string)
    ensures a + (b + x) == a + (b + y) <==> x == y
  {
    if a + (b + x) == a + (b + y) {
      assert x == (a + (b + x))[|a| + |b|..] && y == (a + (b + y))[|a| + |b|..];
    }
  }

  lemma {:induction false} AgreeByRest(lookup: string -> Option<string>, s: string)
    ensures var rest := AfterLone(s);
            Agree(lookup, s) <==> (rest.Some? ==> ValueAll(lookup, Pieces(rest.value)) == rest.value)
    decreases |s|
  {
    if '%' in s {
      var piece, left := Cut(s).0, Cut(s).1;
      var front := s[..IndexOf(s, '%')];
      ValueOfCut(lookup, s);
      if piece.Percent? {
        CutSource(s);
        CancelFront(front, "%", ValueAll(lookup, Pieces(left)), left);
      } else {
        AgreeByRest(lookup, left);
        CancelFront(front, Value(lookup, piece), ValueAll(lookup, Pieces(left)), Stopping(lookup, left));
      }
    } else {
      ValueOfPlain(lookup, s);
    }
  }

  function Percents(s: string): nat {
    if s == "" then 0 else (if s[0] == '%' then 1 else 0) + Percents(s[1..])
  }

  lemma {:induction false} PercentsConcat(a: string, b: string)
    ensures Percents(a + b) == Percents(a) + Percents(b)
    decreases |a|
  {
    if a == "" {
      assert a + b == b;
    } else {
      PercentsConcat(a[1..], b);
      assert (a + b)[1..] == a[1..] + b;
    }
  }

  lemma {:induction false} NoPercents(s: string)
    requires '%' !in s
    ensures Percents(s) == 0
    decreases |s|
  {
    if s != "" { NoPercents(s[1..]); }
  }

  lemma PercentsOfRef(name: string)
    ensures Percents("%" + name + "%") >= 2
  {
    PercentsConcat("%" + name, "%");
    PercentsConcat("%", name);
    assert "%"[1..] == "";
  }

  predicate Known(lookup: string -> Option<string>, p: Piece) {
    p.Ref? && lookup(p.name).Some?
  }

  /** No value holds a percent sign. */
  ghost predicate PlainValues(lookup: string -> Option<string>) {
    forall name :: lookup(name).Some? ==> '%' !in lookup(name).value
  }

  /** A known name takes its percent signs with it. */
  lemma {:induction false} KnownLosesPercents(lookup: string -> Option<string>, ps: seq<Piece>)
    requires PlainValues(lookup)
    ensures Percents(ValueAll(lookup, ps)) <= Percents(SourceAll(ps))
    ensures (exists i :: 0 <= i < |ps| && Known(lookup, ps[i])) ==>
              Percents(ValueAll(lookup, ps)) < Percents(SourceAll(ps))
    decreases |ps|
  {
    if ps != [] {
      KnownLosesPercents(lookup, ps[1..]);
      PercentsConcat(Value(lookup, ps[0]), ValueAll(lookup, ps[1..]));
      PercentsConcat(Source(ps[0]), SourceAll(ps[1..]));
      if Known(lookup, ps[0]) {
        NoPercents(Value(lookup, ps[0]));
        PercentsOfRef(ps[0].name);
      }
      if i :| 0 < i < |ps| && Known(lookup, ps[i]) { assert Known(lookup, ps[1..][i - 1]); }
    }
  }

  ghost predicate NoneKnown(lookup: string -> Option<string>, ps: seq<Piece>) {
    forall i :: 0 <= i < |ps| ==> !Known(lookup, ps[i])
  }

  lemma KeptExactly(lookup: string -> Option<string>, s: string)
    requires PlainValues(lookup)
    ensures ValueAll(lookup, Pieces(s)) == s <==> NoneKnown(lookup, Pieces(s))
  {
    PiecesAreThePath(s);
    var ps := Pieces(s);
    if NoneKnown(lookup, ps) { UnknownPieces(lookup, ps); } else { KnownLosesPercents(lookup, ps); }
  }

  /**
   * With values that hold no percent sign, a path is expanded as if the scan ended at its first lone percent sign
   * if and only if no known name is referred to after it.
   */
  lemma AgreeExactly(lookup: string -> Option<string>, s: string)
    requires PlainValues(lookup)
    ensures Agree(lookup, s) <==> (AfterLone(s).Some? ==> NoneKnown(lookup, Pieces(AfterLone(s).value)))
  {
    AgreeByRest(lookup, s);
    if AfterLone(s).Some? { KeptExactly(lookup, AfterLone(s).value); }
  }

  /** After the first lone percent sign nothing is a reference. */
  ghost predicate NoneAfterLone(s: string) {
    AfterLone(s).Some? ==> NoRef(Pieces(AfterLone(s).value))
  }

  ghost predicate NoRef(ps: seq<Piece>) {
    forall i :: 0 <= i < |ps| ==> !ps[i].Ref?
  }

  lemma AgreeWithoutRef(lookup: string -> Option<string>, s: string)
    requires NoneAfterLone(s)
    ensures Agree(lookup, s)
  {
    AgreeByRest(lookup, s);
    if AfterLone(s).Some? { UnknownLeftAsWritten(lookup, AfterLone(s).value); }
  }

  /** An environment of empty values shows every reference. */
  function Emptied(name: string): Option<string> {
    Some("")
  }

  lemma EmptiedShowsRefs(ps: seq<Piece>)
    ensures PlainValues(Emptied) && (NoneKnown(Emptied, ps) <==> NoRef(ps))
  {
    forall i | 0 <= i < |ps|
      ensures Known(Emptied, ps[i]) <==> ps[i].Ref?
    {
    }
  }

  /** Whatever the environment, a path is so expanded if and only if nothing after the lone percent is a reference. */
  lemma AgreeUnderAll(s: string)
    ensures (forall lookup :: Agree(lookup, s)) <==> NoneAfterLone(s)
  {
    if NoneAfterLone(s) {
      forall lookup: string -> Option<string>
        ensures Agree(lookup, s)
      {
        AgreeWithoutRef(lookup, s);
      }
    } else {
      EmptiedShowsRefs(Pieces(AfterLone(s).value));
      AgreeExactly(Emptied, s);
    }
  }

  predicate IsName(name: string) {
    name != [] && '%' !in name
  }

  lemma LoneThenPercent(rest: string)
    requires rest != "" && rest[0] == '%'
    ensures AfterLone("%" + rest) == Some(rest)
  {
    var s := "%" + rest;
    assert s[0] == '%' && s[1..] == rest && IndexOf(rest, '%') == 0;
  }

  lemma RefAlone(lookup: string -> Option<string>, name: string)
    requires IsName(name) && lookup(name).Some?
    ensures ValueAll(lookup, Pieces("%" + name + "%")) == lookup(name).value
  {
    KnownIsReplaced(lookup, name, lookup(name).value, "");
    ValueOfPlain(lookup, "");
    assert "%" + (name + "%" + "") == "%" + name + "%";
  }

  lemma DoubledPercent(lookup: string -> Option<string>, name: string)
    requires IsName(name) && lookup(name).Some?
    ensures Agree(lookup, "%" + ("%" + name + "%")) <==> lookup(name).value == "%" + name + "%"
  {
    var rest := "%" + name + "%";
    LoneThenPercent(rest);
    AgreeByRest(lookup, "%" + rest);
    RefAlone(lookup, name);
  }

  lemma {:induction false} SelfValued(lookup: string -> Option<string>, ps: seq<Piece>)
    requires forall i :: 0 <= i < |ps| && Known(lookup, ps[i]) ==> lookup(ps[i].name).value == Source(ps[i])
    ensures ValueAll(lookup, ps) == SourceAll(ps)
    decreases |ps|
  {
    if ps != [] { SelfValued(lookup, ps[1..]); }
  }

  /** Under an environment every path is so expanded if and only if each known name stands for itself, as written. */
  lemma AgreeOnAll(lookup: string -> Option<string>)
    ensures (forall s :: Agree(lookup, s)) <==>
            forall name :: IsName(name) && lookup(name).Some? ==> lookup(name).value == "%" + name + "%"
  {
    if forall s :: Agree(lookup, s) {
      forall name | IsName(name) && lookup(name).Some?
        ensures lookup(name).value == "%" + name + "%"
      {
        DoubledPercent(lookup, name);
      }
    }
    if forall name :: IsName(name) && lookup(name).Some? ==> lookup(name).value == "%" + name + "%" {
      forall s
        ensures Agree(lookup, s)
      {
        AgreeByRest(lookup, s);
        if AfterLone(s).Some? {
          var ps := Pieces(AfterLone(s).value);
          PiecesWellFormed(AfterLone(s).value);
          forall i | 0 <= i < |ps| && Known(lookup, ps[i])
            ensures lookup(ps[i].name).value == Source(ps[i])
          {
            assert WellFormed(ps[i]) && IsName(ps[i].name);
          }
          SelfValued(lookup, ps);
          PiecesAreThePath(AfterLone(s).value);
        }
      }
    }
  }
}
