/** Which relative paths `clean_fname` of version-1/util.c makes absolute: it depends on the
    dots and slashes that they begin with. */
module LeadingDots {
  import opened PathNames

  /** A dot, `k` slashes, and what follows. */
  function Led(k: nat, rest: string): string {
    "." + Slashes(k) + rest
  }

  /** Groups of a dot and slashes, one after the other, in front of `t`. */
  function Path(ks: seq<nat>, t: string): string {
    if ks == [] then t else Led(ks[0], Path(ks[1..], t))
  }

  predicate Positive(ks: seq<nat>) {
    forall i :: 0 <= i < |ks| ==> ks[i] > 0
  }

  /** Some group has more than one slash. */
  predicate Wide(ks: seq<nat>) {
    ks != [] && (ks[0] >= 2 || Wide(ks[1..]))
  }

  /** The first such group loses a slash. */
  function Lower(ks: seq<nat>): (r: seq<nat>)
    requires Positive(ks)
    ensures |r| == |ks| && Positive(r) && (!Wide(ks) ==> r == ks)
  {
    if ks == [] then []
    else if ks[0] >= 2 then [ks[0] - 1] + ks[1..]
    else
      var r := Lower(ks[1..]);
      assert !Wide(ks) ==> [ks[0]] + r == ks;
      [ks[0]] + r
  }

  /** The groups after a slash at the very end of the path is gone; the dot that then may be
      left over is no group. */
  function Shorter(ks: seq<nat>): (r: seq<nat>)
    requires Positive(ks)
    ensures |r| <= |ks| && Positive(r)
  {
    var n := |ks| - 1;
    if ks == [] then [] else if ks[n] >= 2 then ks[n := ks[n] - 1] else ks[..n]
  }

  function Leftover(ks: seq<nat>): string {
    if ks != [] && ks[|ks| - 1] <= 1 then "." else ""
  }

  /** The path turns absolute: two groups are taken off at a time, and together they must not
      have more than three slashes; a last one alone not more than two.  With the least
      number of slashes the next wide group is made narrower instead.  `bare` tells that
      nothing follows the groups; then a turn also takes a slash from their end. */
  predicate Escapes(ks: seq<nat>, bare: bool)
    requires Positive(ks)
    decreases |ks|
  {
    if |ks| == 0 then false
    else if |ks| == 1 then ks[0] > 2
    else if ks[0] + ks[1] > 3 then true
    else
      var rest := if ks[0] + ks[1] == 3 then ks[2..] else Lower(ks[2..]);
      if bare then Escapes(Shorter(rest), Leftover(rest) == "") else Escapes(rest, false)
  }

  // ---- one turn ----

  lemma TwoLed(k: nat, l: nat, u: string)
    requires k > 0 && l > 0
    ensures Led(k, Led(l, u)) == ("." + Slashes(k - 1)) + "/." + (Slashes(l) + u)
    ensures Led(k + l - 1, u) == ("." + Slashes(k - 1)) + (Slashes(l) + u)
  {
    assert Slashes(k) == Slashes(k - 1) + "/" && Slashes(k - 1) + Slashes(l) == Slashes(k + l - 1);
  }

  lemma FirstDot(k: nat, back: string)
    requires k > 0 && Absolute(back)
    ensures IndexOf(("." + Slashes(k - 1)) + "/." + back, "/./") == k
  {
    hide IndexOf, At;
    var s := ("." + Slashes(k - 1)) + "/." + back;
    forall j: nat | j <= k ensures At(s, "/./", j) <==> j == k {
      ThreeAt(s, j);
    }
    assert At(s, "/./", k);
    IndexIs(s, "/./", k);
  }

  lemma IndexIs(s: string, pattern: string, k: nat)
    requires At(s, pattern, k) && forall j: nat | j < k :: !At(s, pattern, j)
    ensures IndexOf(s, pattern) == k
  {
    hide IndexOf, At;
    var r := IndexOf(s, pattern);
    assert 0 <= r <= k && At(s, pattern, r);
  }

  /** The first dot between slashes joins the first two groups. */
  lemma DotJoins(k: nat, l: nat, u: string)
    requires k > 0 && l > 0
    ensures DropDot(Led(k, Led(l, u))) == Led(k + l - 1, u)
  {
    hide IndexOf, Led;
    TwoLed(k, l, u);
    var front, back := "." + Slashes(k - 1), Slashes(l) + u;
    FirstDot(k, back);
    var s := front + "/." + back;
    assert s[..k] == front && s[k + 2..] == back;
  }

  lemma SlashNarrows(k: nat, u: string)
    requires k >= 2
    ensures DropSlash(Led(k, u)) == Led(k - 1, u)
  {
    var s := Led(k, u);
    TwoAt(s, 0);
    TwoAt(s, 1);
    hide At;
    assert IndexOf(s, "//") == 1;
    hide IndexOf;
    assert s[..1] + s[2..] == Led(k - 1, u);
  }

  lemma SlashBehind(u: string)
    requires !Absolute(u)
    ensures DropSlash(Led(1, u)) == Led(1, DropSlash(u))
  {
    hide DropSlash, Absolute;
    PastOneSlash(u);
  }

  lemma LeadGoes(k: nat, u: string)
    requires k > 0
    ensures DropLead(Led(k, u)) == Slashes(k - 1) + u
  {
    assert Led(k, u)[2..] == Slashes(k - 1) + u;
  }

  lemma PathRelative(ks: seq<nat>, t: string)
    requires !Absolute(t)
    ensures !Absolute(Path(ks, t))
  {
  }

  lemma {:induction false} SlashInPath(ks: seq<nat>, t: string)
    requires Positive(ks) && Firm(t)
    ensures DropSlash(Path(ks, t)) == if Wide(ks) then Path(Lower(ks), t) else Path(ks, DropSlash(t))
  {
    hide DropSlash, Led, Firm, Absolute;
    if ks == [] {
      return;
    }
    var rest := ks[1..];
    if ks[0] >= 2 {
      SlashNarrows(ks[0], Path(rest, t));
      Stepped([ks[0] - 1] + rest, t);
    } else {
      FirmRelative(t);
      PathRelative(rest, t);
      SlashBehind(Path(rest, t));
      SlashInPath(rest, t);
      Stepped([ks[0]] + Lower(rest), t);
      assert [ks[0]] + rest == ks;
    }
  }

  lemma Stepped(ks: seq<nat>, t: string)
    requires ks != []
    ensures Path(ks, t) == Led(ks[0], Path(ks[1..], t))
  {
  }

  lemma TailOfLed(k: nat, u: string)
    requires k > 0 && (|u| == 1 ==> u[0] != '/')
    ensures u != "" ==> DropTail(Led(k, u)) == Led(k, DropTail(u))
    ensures u == "" ==> DropTail(Led(k, u)) == if k >= 2 then Led(k - 1, u) else "."
  {
    var s := Led(k, u);
    if u == "" {
      assert s[..k] == "." + Slashes(k - 1);
    } else {
      assert s[|s| - 1] == u[|u| - 1];
      assert s[..|s| - 1] == "." + Slashes(k) + u[..|u| - 1];
    }
  }

  lemma PathLength(ks: seq<nat>, t: string)
    requires Positive(ks)
    ensures ks != [] ==> |Path(ks, t)| >= 2
  {
  }

  lemma {:induction false} TailOfPath(ks: seq<nat>, t: string)
    requires Positive(ks) && Firm(t)
    ensures DropTail(Path(ks, t)) ==
      if t != "" then Path(ks, DropTail(t)) else Path(Shorter(ks), Leftover(ks))
  {
    hide DropTail, Led;
    if ks == [] {
      assert DropTail("") == "" by {
        EmptyTail();
      }
    } else {
      var rest := ks[1..];
      var u := Path(rest, t);
      PathLength(rest, t);
      TailOfLed(ks[0], u);
      TailOfPath(rest, t);
      ShorterFirst(ks);
    }
  }

  lemma ShorterFirst(ks: seq<nat>)
    requires ks != [] && Positive(ks)
    ensures |ks| > 1 ==>
      |Shorter(ks)| > 0 && Shorter(ks)[0] == ks[0] && Shorter(ks)[1..] == Shorter(ks[1..])
      && Leftover(ks) == Leftover(ks[1..])
    ensures |ks| == 1 ==> Shorter(ks) == if ks[0] >= 2 then [ks[0] - 1] else []
  {
    if |ks| > 1 {
      assert ks[1..][..|ks| - 2] == ks[..|ks| - 1][1..];
    }
  }

  lemma EmptyTail()
    ensures DropTail("") == ""
  {
  }

  /** A turn takes off the first two groups. */
  lemma TurnOfPath(ks: seq<nat>, t: string)
    requires Positive(ks) && Firm(t) && |ks| >= 2
    ensures ks[0] + ks[1] > 3 ==> Absolute(Turn(Path(ks, t)))
    ensures ks[0] + ks[1] == 3 ==> Turn(Path(ks, t)) == DropTail(Path(ks[2..], t))
    ensures ks[0] + ks[1] == 2 ==> Turn(Path(ks, t)) == DropTail(DropSlash(Path(ks[2..], t)))
  {
    hide DropDot, DropSlash, DropLead, DropTail, Led;
    var k, u := ks[0] + ks[1] - 1, Path(ks[2..], t);
    assert ks[1..][1..] == ks[2..];
    assert Path(ks, t) == Led(ks[0], Led(ks[1], u));
    DotJoins(ks[0], ks[1], u);
    if k == 1 {
      PathRelative(ks[2..], t);
      SlashBehind(u);
      LeadGoes(1, DropSlash(u));
      assert Slashes(0) + DropSlash(u) == DropSlash(u);
    } else {
      SlashNarrows(k, u);
      LeadGoes(k - 1, u);
      TailKind(Slashes(k - 2) + u);
      assert k == 2 ==> Slashes(k - 2) + u == u;
    }
  }

  lemma FirmDotItself()
    ensures Firm(".") && Firm("")
  {
  }

  lemma TailLeft(t: string)
    requires Firm(t) && t != ""
    ensures Firm(DropTail(t)) && DropTail(t) != ""
  {
  }

  lemma SlashLeft(t: string)
    requires Firm(t)
    ensures Firm(DropSlash(t)) && (DropSlash(t) == "" <==> t == "")
  {
    FirmSlash(t);
    hide IndexOf;
    var i := IndexOf(t, "//");
    if i >= 0 {
      TwoAt(t, i);
    }
  }

  /** What is left of a path after a turn that does not make it absolute. */
  lemma NextPath(ks: seq<nat>, t: string) returns (ls: seq<nat>, u: string)
    requires Positive(ks) && Firm(t) && |ks| >= 2 && ks[0] + ks[1] <= 3
    ensures Turn(Path(ks, t)) == Path(ls, u) && Positive(ls) && Firm(u) && |ls| < |ks|
    ensures Escapes(ks, t == "") <==> Escapes(ls, u == "")
  {
    hide Turn, DropSlash, DropTail, Firm;
    TurnOfPath(ks, t);
    FirmDotItself();
    var rest, v := ks[2..], t;
    SlashLeft(t);
    if ks[0] + ks[1] == 2 {
      SlashInPath(rest, t);
      if !Wide(rest) {
        v := DropSlash(t);
      }
      rest := Lower(rest);
    }
    TailOfPath(rest, v);
    if v != "" {
      TailLeft(v);
      ls, u := rest, DropTail(v);
    } else {
      ls, u := Shorter(rest), Leftover(rest);
    }
  }

  lemma {:induction false} EscapesExact(ks: seq<nat>, t: string)
    requires Positive(ks) && Firm(t)
    ensures Absolute(Clean(Path(ks, t))) <==> Escapes(ks, t == "")
    decreases |ks|
  {
    hide Turn, Clean;
    if |ks| == 0 {
      FirmStays(t);
    } else if |ks| == 1 {
      LeadingDotExact(ks[0], t);
      assert Path(ks, t) == "." + Slashes(ks[0]) + t;
    } else {
      CleanTurn(Path(ks, t));
      if ks[0] + ks[1] > 3 {
        TurnOfPath(ks, t);
        CleanKeeps(Turn(Path(ks, t)));
      } else {
        var ls, u := NextPath(ks, t);
        EscapesExact(ls, u);
      }
    }
  }

  // ---- every relative path ----

  /** How many slashes a path begins with. */
  function Run(s: string): (n: nat)
    ensures n <= |s| && (Absolute(s) ==> n > 0) && s == Slashes(n) + s[n..] && !Absolute(s[n..])
  {
    if !Absolute(s) then 0
    else
      var n := 1 + Run(s[1..]);
      assert s[1..][n - 1..] == s[n..];
      n
  }

  /** The groups that a path begins with, and what follows them. */
  function Groups(s: string): seq<nat>
    decreases |s|
  {
    if !LeadingDot(s) then [] else [Run(s[1..])] + Groups(s[1 + Run(s[1..])..])
  }

  function Behind(s: string): string
    decreases |s|
  {
    if !LeadingDot(s) then s else Behind(s[1 + Run(s[1..])..])
  }

  lemma {:induction false} Parsed(s: string)
    requires !Absolute(s)
    ensures s == Path(Groups(s), Behind(s)) && Positive(Groups(s)) && Firm(Behind(s))
    decreases |s|
  {
    hide Led, Run, Absolute;
    if LeadingDot(s) {
      LedRest(s);
      var rest := s[1 + Run(s[1..])..];
      Parsed(rest);
      assert Groups(s)[1..] == Groups(rest);
    } else {
      FirmOf(s);
    }
  }

  lemma FirmOf(s: string)
    requires !Absolute(s) && !LeadingDot(s)
    ensures Firm(s)
  {
  }

  lemma LedRest(s: string)
    requires LeadingDot(s)
    ensures
      var k := Run(s[1..]);
      k > 0 && s == Led(k, s[1 + k..]) && !Absolute(s[1 + k..])
  {
    var k := Run(s[1..]);
    assert s[1..][k..] == s[1 + k..] && s == "." + s[1..];
  }

  /** Relative paths, exactly: such a path turns absolute if and only if the groups of dots
      and slashes that it begins with let it escape. */
  lemma RelativeExact(s: string)
    requires !Absolute(s)
    ensures Positive(Groups(s))
    ensures Absolute(Clean(s)) <==> Escapes(Groups(s), Behind(s) == "")
  {
    Parsed(s);
    EscapesExact(Groups(s), Behind(s));
  }
}
