/** `clean_fname` of version-1/util.c: path names are rewritten until nothing is left to
    clean. */
module PathNames {

  predicate At(s: string, pattern: string, i: int) {
    0 <= i <= |s| - |pattern| && s[i..i + |pattern|] == pattern
  }

  /** `strstr`: the first occurrence, or -1. */
  function IndexOf(s: string, pattern: string): (r: int)
    ensures r == -1 || At(s, pattern, r)
    ensures forall i :: At(s, pattern, i) ==> 0 <= r <= i
  {
    FirstFrom(s, pattern, 0)
  }

  function FirstFrom(s: string, pattern: string, from: nat): (r: int)
    ensures r == -1 || (At(s, pattern, r) && from <= r)
    ensures forall i :: At(s, pattern, i) && from <= i ==> 0 <= r <= i
    decreases |s| - from
  {
    if from + |pattern| > |s| then -1
    else if At(s, pattern, from) then from
    else if from == |s| then -1
    else FirstFrom(s, pattern, from + 1)
  }

  // ---- the four rewritings of one turn of the loop ----

  function DropDot(s: string): (r: string)
    ensures |r| < |s| || r == s
  {
    var i := IndexOf(s, "/./");
    if i >= 0 then s[..i] + s[i + 2..] else s
  }

  function DropSlash(s: string): (r: string)
    ensures |r| < |s| || r == s
  {
    var i := IndexOf(s, "//");
    if i >= 0 then s[..i] + s[i + 1..] else s
  }

  predicate LeadingDot(s: string) {
    |s| >= 2 && s[0] == '.' && s[1] == '/'
  }

  function DropLead(s: string): (r: string)
    ensures |r| < |s| || r == s
  {
    if LeadingDot(s) then s[2..] else s
  }

  function DropTail(s: string): (r: string)
    ensures |r| < |s| || r == s
  {
    if |s| > 1 && s[|s| - 1] == '/' then s[..|s| - 1] else s
  }

  function Turn(s: string): (r: string)
    ensures |r| < |s| || r == s
  {
    var s1 := DropDot(s);
    var s2 := DropSlash(s1);
    var s3 := DropLead(s2);
    DropTail(s3)
  }

  function Clean(s: string): string
    decreases |s|
  {
    if Turn(s) == s then s else Clean(Turn(s))
  }

  /** `clean_fname`. */
  method CleanFname(s: string) returns (name: string)
    ensures name == Clean(s)
  {
    hide DropDot, DropSlash, DropLead, DropTail;
    name := s;
    var modified := true;
    while modified
      invariant Clean(name) == Clean(s)
      invariant !modified ==> name == Clean(s)
      decreases |name|, modified
    {
      var inside, atEnds;
      name, inside := RewriteInside(name);
      name, atEnds := RewriteEnds(name);
      modified := inside || atEnds;
    }
  }

  /** The first half of the body of the loop. */
  method RewriteInside(s: string) returns (name: string, modified: bool)
    ensures name == DropSlash(DropDot(s)) && (if modified then |name| < |s| else name == s)
  {
    hide IndexOf;
    name, modified := s, false;
    var p := IndexOf(name, "/./");
    if p >= 0 {
      modified := true;
      name := name[..p] + name[p + 2..];
    }
    p := IndexOf(name, "//");
    if p >= 0 {
      modified := true;
      name := name[..p] + name[p + 1..];
    }
  }

  method RewriteEnds(s: string) returns (name: string, modified: bool)
    ensures name == DropTail(DropLead(s)) && (if modified then |name| < |s| else name == s)
  {
    name, modified := s, false;
    if LeadingDot(name) {
      modified := true;
      name := name[2..];
    }
    if |name| > 1 && name[|name| - 1] == '/' {
      modified := true;
      name := name[..|name| - 1];
    }
  }

  // ---- what it is for ----

  predicate Absolute(s: string) {
    s != "" && s[0] == '/'
  }

  /** Nothing is left to clean. */
  predicate IsClean(s: string) {
    && IndexOf(s, "/./") < 0 && IndexOf(s, "//") < 0 && !LeadingDot(s)
    && (|s| > 1 ==> s[|s| - 1] != '/')
  }

  /** The length of the first component. */
  function Span(s: string): (n: nat)
    ensures n <= |s| && (forall i | 0 <= i < n :: s[i] != '/') && (n < |s| ==> s[n] == '/')
  {
    if s == "" || s[0] == '/' then 0 else 1 + Span(s[1..])
  }

  /** The components of a path other than the empty one and the dot. */
  function Names(s: string): seq<string> {
    if s == "" then []
    else if s[0] == '/' then Names(s[1..])
    else
      var n := Span(s);
      Component(s[..n]) + Names(s[n..])
  }

  lemma {:induction false} NamesJoin(a: string, b: string)
    ensures Names(a + "/" + b) == Names(a) + Names(b)
    decreases |a|
  {
    var s := a + "/" + b;
    if a == "" {
      assert s[1..] == b;
    } else if a[0] == '/' {
      assert s[1..] == a[1..] + "/" + b;
      NamesJoin(a[1..], b);
    } else {
      NamesJoin(a[Span(a)..], b);
      FirstJoin(a, b);
    }
  }

  lemma FirstJoin(a: string, b: string)
    requires a != "" && a[0] != '/'
    requires var rest := a[Span(a)..]; Names(rest + "/" + b) == Names(rest) + Names(b)
    ensures Names(a + "/" + b) == Names(a) + Names(b)
  {
    hide Names, Span, Component;
    var s, n := a + "/" + b, Span(a);
    SpanIs(s, n);
    FirstName(s);
    FirstName(a);
    assert s[..n] == a[..n];
    assert s[n..] == a[n..] + "/" + b;
    var first, rest := Component(a[..n]), Names(a[n..]);
    assert first + (rest + Names(b)) == first + rest + Names(b);
  }

  function Component(c: string): seq<string> {
    if c == "." then [] else [c]
  }

  lemma FirstName(s: string)
    requires s != "" && s[0] != '/'
    ensures Span(s) > 0 && Names(s) == Component(s[..Span(s)]) + Names(s[Span(s)..])
  {
  }

  lemma {:induction false} SpanIs(s: string, n: nat)
    requires n < |s| && s[n] == '/' && forall i | 0 <= i < n :: s[i] != '/'
    ensures Span(s) == n
  {
    if n > 0 {
      SpanIs(s[1..], n - 1);
    }
  }

  lemma NamesOfDot()
    ensures Names(".") == [] && Names("") == []
  {
    assert "."[..1] == "." && Span(".") == 1;
  }

  lemma TwoAt(s: string, j: nat)
    ensures At(s, "//", j) <==> j + 1 < |s| && s[j] == '/' && s[j + 1] == '/'
  {
    if j + 1 < |s| {
      assert s[j..j + 2] == [s[j], s[j + 1]];
    }
  }

  lemma ThreeAt(s: string, j: nat)
    ensures At(s, "/./", j) <==> j + 2 < |s| && s[j] == '/' && s[j + 1] == '.' && s[j + 2] == '/'
  {
    if j + 2 < |s| {
      assert s[j..j + 3] == [s[j], s[j + 1], s[j + 2]];
    }
  }

  lemma DotParts(s: string, i: nat)
    requires At(s, "/./", i)
    ensures i + 3 <= |s| && s == s[..i] + "/" + ("." + "/" + s[i + 3..])
    ensures s[..i] + s[i + 2..] == s[..i] + "/" + s[i + 3..]
  {
    ThreeAt(s, i);
  }

  lemma SlashParts(s: string, i: nat)
    requires At(s, "//", i)
    ensures i + 2 <= |s| && s == s[..i] + "/" + ("" + "/" + s[i + 2..])
    ensures s[..i] + s[i + 1..] == s[..i] + "/" + s[i + 2..]
  {
    TwoAt(s, i);
  }

  lemma DotKeeps(s: string)
    ensures Names(DropDot(s)) == Names(s) && (Absolute(s) ==> Absolute(DropDot(s)))
  {
    hide Names, IndexOf, At;
    var i := IndexOf(s, "/./");
    if i >= 0 {
      DotParts(s, i);
      var a, b := s[..i], s[i + 3..];
      NamesJoin(a, "." + "/" + b);
      NamesJoin(".", b);
      NamesJoin(a, b);
      NamesOfDot();
    }
  }

  lemma SlashKeeps(s: string)
    ensures Names(DropSlash(s)) == Names(s) && (Absolute(s) ==> Absolute(DropSlash(s)))
  {
    hide Names, IndexOf, At;
    var i := IndexOf(s, "//");
    if i >= 0 {
      SlashParts(s, i);
      var a, b := s[..i], s[i + 2..];
      NamesJoin(a, "" + "/" + b);
      NamesJoin("", b);
      NamesJoin(a, b);
      NamesOfDot();
    }
  }

  lemma EndsKeep(s: string)
    ensures Names(DropLead(s)) == Names(s) && (Absolute(s) ==> Absolute(DropLead(s)))
    ensures Names(DropTail(s)) == Names(s) && (Absolute(s) ==> Absolute(DropTail(s)))
  {
    hide Names;
    NamesOfDot();
    if LeadingDot(s) {
      assert s == "." + "/" + DropLead(s);
      NamesJoin(".", DropLead(s));
    }
    if s != DropTail(s) {
      assert s == DropTail(s) + "/" + "";
      NamesJoin(DropTail(s), "");
    }
  }

  /** For every path: what is left is clean, with the same components, and an absolute path
      stays one. */
  lemma {:induction false} CleanKeeps(s: string)
    ensures IsClean(Clean(s)) && Names(Clean(s)) == Names(s)
    ensures Absolute(s) ==> Absolute(Clean(s))
    decreases |s|
  {
    hide DropDot, DropSlash, DropLead, DropTail, Names;
    DotKeeps(s);
    SlashKeeps(DropDot(s));
    EndsKeep(DropSlash(DropDot(s)));
    EndsKeep(DropLead(DropSlash(DropDot(s))));
    if Turn(s) == s {
      StillIsClean(s);
    } else {
      CleanKeeps(Turn(s));
    }
  }

  lemma StillIsClean(s: string)
    requires Turn(s) == s
    ensures IsClean(s)
  {
    assert DropDot(s) == s && DropSlash(s) == s && DropLead(s) == s && DropTail(s) == s by {
      hide DropDot, DropSlash, DropLead, DropTail;
    }
    hide IndexOf, Turn;
    assert IndexOf(s, "/./") < 0 by {
      hide DropSlash, DropLead, DropTail;
    }
    assert IndexOf(s, "//") < 0 by {
      hide DropDot, DropLead, DropTail;
    }
  }

  // ---- relative paths ----

  /** A relative path that does not begin with a dot and a slash. */
  predicate Firm(s: string) {
    !Absolute(s) && !LeadingDot(s)
  }

  lemma FirmTurn(s: string)
    requires Firm(s)
    ensures Firm(Turn(s))
  {
    FirmDot(s);
    FirmSlash(DropDot(s));
    hide DropDot, DropSlash;
    var s2 := DropSlash(DropDot(s));
    assert DropLead(s2) == s2;
  }

  lemma FirmDot(s: string)
    requires Firm(s)
    ensures Firm(DropDot(s))
  {
    hide IndexOf;
    var i := IndexOf(s, "/./");
    if i >= 0 {
      ThreeAt(s, i);
    }
  }

  lemma FirmSlash(s: string)
    requires Firm(s)
    ensures Firm(DropSlash(s))
  {
    hide IndexOf;
    var i := IndexOf(s, "//");
    if i >= 0 {
      TwoAt(s, i);
    }
  }

  lemma {:induction false} FirmStays(s: string)
    requires Firm(s)
    ensures !Absolute(Clean(s))
    decreases |s|
  {
    hide Turn;
    FirmTurn(s);
    if Turn(s) != s {
      FirmStays(Turn(s));
    }
  }

  /** A relative path without a double slash stays relative, however many dots it has. */
  lemma {:induction false} SingleSlashesStay(s: string)
    requires !Absolute(s) && IndexOf(s, "//") < 0
    ensures !Absolute(Clean(s))
    decreases |s|
  {
    hide Turn;
    SingleTurn(s);
    if Turn(s) != s {
      SingleSlashesStay(Turn(s));
    }
  }

  predicate Single(s: string) {
    forall i :: 0 <= i < |s| - 1 ==> !(s[i] == '/' && s[i + 1] == '/')
  }

  lemma SingleIs(s: string)
    ensures Single(s) <==> IndexOf(s, "//") < 0
  {
    if !Single(s) {
      var i :| 0 <= i < |s| - 1 && s[i] == '/' && s[i + 1] == '/';
      TwoAt(s, i);
    }
    var r := IndexOf(s, "//");
    if r >= 0 {
      TwoAt(s, r);
    }
  }

  lemma SingleTurn(s: string)
    requires !Absolute(s) && IndexOf(s, "//") < 0
    ensures !Absolute(Turn(s)) && IndexOf(Turn(s), "//") < 0
  {
    hide IndexOf;
    SingleIs(s);
    var s1 := DropDot(s);
    var i := IndexOf(s, "/./");
    if i >= 0 {
      ThreeAt(s, i);
    }
    assert Single(s1) && !Absolute(s1);
    SingleIs(s1);
    var s3 := DropLead(s1);
    assert Single(s3) && !Absolute(s3);
    SingleIs(Turn(s));
  }

  /** A path that begins with one dot, `k` slashes and then anything but a slash or another
      dot and slash: it stays relative exactly when there are at most two slashes. */
  lemma LeadingDotExact(k: nat, t: string)
    requires k >= 1 && Firm(t)
    ensures Absolute(Clean("." + Slashes(k) + t)) <==> k > 2
  {
    hide DropDot, DropSlash, DropTail, Clean;
    var s := "." + Slashes(k) + t;
    var t1 := DropDot(t);
    FirmDot(t);
    assert DropDot(s) == "." + Slashes(k) + t1 by {
      PastTheSlashes(k, t);
    }
    TurnOfDot(k, t1);
    hide Turn;
    CleanTurn(s);
    if k > 2 {
      CleanKeeps(Turn(s));
    } else {
      FirmStays(Turn(s));
    }
  }

  lemma CleanTurn(s: string)
    ensures Clean(Turn(s)) == Clean(s)
  {
  }

  /** A pattern that does not begin within `x` is found where it is found behind `x`. */
  lemma FoundBehind(x: string, t: string, pattern: string)
    requires forall j | 0 <= j < |x| :: !At(x + t, pattern, j)
    ensures
      var i := IndexOf(t, pattern);
      IndexOf(x + t, pattern) == if i < 0 then -1 else |x| + i
  {
    hide IndexOf;
    forall j | j >= 0 ensures At(x + t, pattern, |x| + j) <==> At(t, pattern, j) {
      if |x| + j + |pattern| <= |x + t| {
        assert (x + t)[|x| + j..|x| + j + |pattern|] == t[j..j + |pattern|];
      }
    }
    var i, r := IndexOf(t, pattern), IndexOf(x + t, pattern);
    if i >= 0 {
      assert At(x + t, pattern, |x| + i);
    }
    assert r >= 0 ==> r >= |x| && At(t, pattern, r - |x|);
  }

  lemma CutBehind(x: string, t: string, i: nat, n: nat)
    requires i + n <= |t|
    ensures (x + t)[..|x| + i] + (x + t)[|x| + i + n..] == x + (t[..i] + t[i + n..])
  {
    assert (x + t)[..|x| + i] == x + t[..i];
    assert (x + t)[|x| + i + n..] == t[i + n..];
  }

  /** The first dot between slashes lies behind the leading dot and its slashes. */
  lemma PastTheSlashes(k: nat, t: string)
    requires k >= 1 && Firm(t)
    ensures DropDot("." + Slashes(k) + t) == "." + Slashes(k) + DropDot(t)
  {
    var x := "." + Slashes(k);
    hide IndexOf, At;
    forall j | 0 <= j < |x| ensures !At(x + t, "/./", j) {
      ThreeAt(x + t, j);
    }
    FoundBehind(x, t, "/./");
    var i := IndexOf(t, "/./");
    if i >= 0 {
      ThreeAt(t, i);
      CutBehind(x, t, i, 2);
    }
  }

  lemma TurnOfDot(k: nat, t: string)
    requires k >= 1 && Firm(t)
    ensures
      var r := DropTail(DropLead(DropSlash("." + Slashes(k) + t)));
      if k > 2 then Absolute(r) else Firm(r)
  {
    hide DropSlash, DropLead, DropTail, Firm;
    if k == 1 {
      FirmRelative(t);
      PastOneSlash(t);
      FirmSlash(t);
      LeadGone(DropSlash(t));
      TailKind(DropSlash(t));
    } else {
      MoreSlashes(k, t);
      TailKind(Slashes(k - 2) + t);
      assert k == 2 ==> Slashes(k - 2) + t == t;
    }
  }

  lemma FirmRelative(t: string)
    requires Firm(t)
    ensures !Absolute(t)
  {
  }

  lemma TailKind(s: string)
    ensures Firm(s) ==> Firm(DropTail(s))
    ensures Absolute(s) ==> Absolute(DropTail(s))
  {
  }

  lemma PastOneSlash(t: string)
    requires !Absolute(t)
    ensures DropSlash("." + Slashes(1) + t) == "." + Slashes(1) + DropSlash(t)
  {
    var x := "." + Slashes(1);
    hide IndexOf, At;
    forall j | 0 <= j < |x| ensures !At(x + t, "//", j) {
      TwoAt(x + t, j);
    }
    FoundBehind(x, t, "//");
    var i := IndexOf(t, "//");
    if i >= 0 {
      TwoAt(t, i);
      CutBehind(x, t, i, 1);
    }
  }

  lemma LeadGone(t: string)
    ensures DropLead("." + Slashes(1) + t) == t
  {
    assert ("." + Slashes(1) + t)[2..] == t;
  }

  lemma MoreSlashes(k: nat, t: string)
    requires k >= 2
    ensures DropLead(DropSlash("." + Slashes(k) + t)) == Slashes(k - 2) + t
  {
    var s := "." + Slashes(k) + t;
    TwoAt(s, 0);
    TwoAt(s, 1);
    hide IndexOf, At;
    assert IndexOf(s, "//") == 1;
    assert s[..1] + s[2..] == "." + Slashes(k - 1) + t;
    assert ("." + Slashes(k - 1) + t)[2..] == Slashes(k - 2) + t;
  }

  function Slashes(k: nat): (s: string)
    ensures |s| == k
  {
    seq(k, _ => '/')
  }
}
