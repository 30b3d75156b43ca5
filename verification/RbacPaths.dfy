/** Paths and verbs of the permission engine, with what they mean. */
module RbacPaths {

  // ---- paths ----

  function StripSlashes(p: string): string {
    if |p| > 1 && p[|p| - 1] == '/' then StripSlashes(p[..|p| - 1]) else p
  }

  lemma {:induction false} StripSlashesLaw(p: string)
    requires p != ""
    ensures var q := StripSlashes(p);
            q != "" && q[0] == p[0] && (|q| == 1 || q[|q| - 1] != '/')
  {
    if |p| > 1 && p[|p| - 1] == '/' { StripSlashesLaw(p[..|p| - 1]); }
  }

  function CanonicalPath(p: string): string {
    if p == "" then "/"
    else
      StripSlashesLaw(p);
      var q := StripSlashes(p);
      if q[0] != '/' then "/" + q else q
  }

  /** Rooted, with no trailing slash but the root's own. */
  predicate Canonical(p: string) {
    p == "/" || (|p| > 1 && p[0] == '/' && p[|p| - 1] != '/')
  }

  /** p with a slash put in front of it if it has none. */
  function Rooted(p: string): string {
    if p != "" && p[0] == '/' then p else "/" + p
  }

  ghost predicate OnlySlashes(s: string) {
    forall i :: 0 <= i < |s| ==> s[i] == '/'
  }

  lemma {:induction false} StripsOnlySlashes(p: string)
    ensures StripSlashes(p) <= p && OnlySlashes(p[|StripSlashes(p)|..])
  {
    if |p| > 1 && p[|p| - 1] == '/' {
      var q := p[..|p| - 1];
      StripsOnlySlashes(q);
      assert p[|StripSlashes(p)|..] == q[|StripSlashes(q)|..] + "/";
    }
  }

  lemma {:induction false} RootedLaw(p: string)
    requires p != ""
    ensures CanonicalPath(p) <= Rooted(p) && OnlySlashes(Rooted(p)[|CanonicalPath(p)|..])
    ensures CanonicalPath(p) == "/" <==> OnlySlashes(p)
  {
    StripSlashesLaw(p);
    StripsOnlySlashes(p);
    var q := StripSlashes(p);
    var rest := p[|q|..];
    if p[0] == '/' {
      if q == "/" {
        forall i | 0 <= i < |p| ensures p[i] == '/' { if i > 0 { assert rest[i - 1] == p[i]; } }
      }
      if OnlySlashes(p) { assert q[|q| - 1] == p[|q| - 1]; }
    } else {
      assert Rooted(p)[|q| + 1..] == rest;
    }
  }

  /** canonicalPath reaches a canonical path, by putting a missing slash in front and taking
      slashes off the end only, and leaves a canonical one alone. */
  lemma {:induction false} CanonicalPathLaw(p: string)
    ensures CanonicalPath(p) <= Rooted(p) && OnlySlashes(Rooted(p)[|CanonicalPath(p)|..])
    ensures CanonicalPath(p) == "/" <==> OnlySlashes(p)
    ensures Canonical(CanonicalPath(p))
    ensures Canonical(p) ==> CanonicalPath(p) == p
    ensures CanonicalPath(CanonicalPath(p)) == CanonicalPath(p)
  {
    if p != "" {
      StripSlashesLaw(p);
      StripsOnlySlashes(p);
      RootedLaw(p);
    }
    CanonicalFixed(CanonicalPath(p));
    if Canonical(p) { CanonicalFixed(p); }
  }

  lemma {:induction false} CanonicalFixed(p: string)
    requires Canonical(p)
    ensures CanonicalPath(p) == p
  {
    assert StripSlashes(p) == p;
  }

  function PathPrefixOf(prefix: string, path: string): bool {
    var a := CanonicalPath(prefix);
    var b := CanonicalPath(path);
    if a == "/" then true
    else if !(a <= b) then false
    else if |b| == |a| then true
    else b[|a|] == '/'
  }

  /** One more character in front: a slash starts a new segment. */
  function Push(c: char, segments: seq<string>): (more: seq<string>)
    requires segments != []
    ensures more != []
  {
    if c == '/' then [""] + segments else [[c] + segments[0]] + segments[1..]
  }

  /** The segments between slashes; there is always one. */
  function Split(s: string): (segments: seq<string>)
    ensures segments != []
  {
    if s == "" then [""] else Push(s[0], Split(s[1..]))
  }

  function Join(segments: seq<string>): string
    requires segments != []
  {
    if |segments| == 1 then segments[0] else segments[0] + "/" + Join(segments[1..])
  }

  lemma {:induction false} JoinPush(c: char, segments: seq<string>)
    requires segments != []
    ensures Join(Push(c, segments)) == [c] + Join(segments)
  {
    var more := Push(c, segments);
    if c == '/' {
      assert more[1..] == segments;
    } else {
      assert more[1..] == segments[1..];
    }
  }

  lemma {:induction false} NoSlashInside(s: string)
    ensures forall x :: x in Split(s) ==> '/' !in x
  {
    if s != "" { NoSlashInside(s[1..]); }
  }

  /** The segments, joined by slashes, are the string. */
  lemma {:induction false} JoinSplit(s: string)
    ensures Join(Split(s)) == s
  {
    if s != "" {
      JoinSplit(s[1..]);
      JoinPush(s[0], Split(s[1..]));
      assert s == [s[0]] + s[1..];
    }
  }

  lemma {:induction false} PushConcat(c: char, x: seq<string>, y: seq<string>)
    requires x != []
    ensures Push(c, x + y) == Push(c, x) + y
  {
    assert (x + y)[1..] == x[1..] + y;
  }

  lemma {:induction false} SplitJoins(a: string, b: string)
    ensures Split(a + "/" + b) == Split(a) + Split(b)
  {
    var s := a + "/" + b;
    if a == "" {
      assert s[0] == '/' && s[1..] == b;
    } else {
      SplitJoins(a[1..], b);
      PushConcat(a[0], Split(a[1..]), Split(b));
      assert s[0] == a[0] && s[1..] == a[1..] + "/" + b;
    }
  }

  lemma {:induction false} JoinConcat(a: seq<string>, b: seq<string>)
    requires a != [] && b != []
    ensures Join(a + b) == Join(a) + "/" + Join(b)
  {
    if |a| == 1 {
      assert (a + b)[1..] == b;
    } else {
      assert (a + b)[1..] == a[1..] + b;
      JoinConcat(a[1..], b);
    }
  }

  /** The segments of a canonical path; none at the root. */
  function Segments(p: string): seq<string> {
    if p == "/" || p == "" then [] else Split(p[1..])
  }

  /** The segments of a canonical path spell it, and hold no slash. */
  lemma {:induction false} SegmentsLaw(p: string)
    requires Canonical(p)
    ensures if Segments(p) == [] then p == "/" else p == "/" + Join(Segments(p))
    ensures forall x :: x in Segments(p) ==> '/' !in x
  {
    if p != "/" {
      JoinSplit(p[1..]);
      NoSlashInside(p[1..]);
      assert p == "/" + p[1..];
    }
  }

  /** pathPrefixOf is exactly list prefix on segments. */
  lemma {:induction false} PrefixIsSegmentPrefix(prefix: string, path: string)
    ensures PathPrefixOf(prefix, path) <==> Segments(CanonicalPath(prefix)) <= Segments(CanonicalPath(path))
  {
    var a, b := CanonicalPath(prefix), CanonicalPath(path);
    CanonicalPathLaw(prefix);
    CanonicalPathLaw(path);
    if a != "/" {
      if PathPrefixOf(prefix, path) { PrefixSegments(a, b); }
      if Segments(a) <= Segments(b) { SegmentsPrefix(a, b); }
    }
  }

  lemma {:induction false} PrefixSegments(a: string, b: string)
    requires Canonical(a) && Canonical(b) && a != "/" && a <= b && (|b| == |a| || b[|a|] == '/')
    ensures Segments(a) <= Segments(b)
  {
    if |b| == |a| {
      assert a == b;
    } else {
      var rest := b[|a| + 1..];
      assert b[1..] == a[1..] + "/" + rest;
      SplitJoins(a[1..], rest);
    }
  }

  lemma {:induction false} JoinPrefix(x: seq<string>, y: seq<string>)
    requires x != [] && x < y
    ensures Join(x) + "/" <= Join(y)
  {
    assert y == x + y[|x|..];
    JoinConcat(x, y[|x|..]);
  }

  lemma {:induction false} SegmentsPrefix(a: string, b: string)
    requires Canonical(a) && Canonical(b) && a != "/" && Segments(a) <= Segments(b)
    ensures a <= b && (|b| == |a| || b[|a|] == '/')
  {
    JoinSplit(a[1..]);
    JoinSplit(b[1..]);
    if Segments(a) == Segments(b) {
      SameSegments(a, b);
    } else {
      JoinPrefix(Segments(a), Segments(b));
      Unrooted(a, b);
    }
  }

  lemma {:induction false} Unrooted(a: string, b: string)
    requires Canonical(a) && Canonical(b) && a != "/" && b != "/" && a[1..] + "/" <= b[1..]
    ensures a <= b && |b| > |a| && b[|a|] == '/'
  {
    assert a == "/" + a[1..] && b == "/" + b[1..];
    assert b[1..][|a| - 1] == (a[1..] + "/")[|a| - 1];
  }

  /** Hence a partial order on canonical paths, with the root below everything. */
  lemma {:induction false} PathOrder(a: string, b: string, c: string)
    requires Canonical(a) && Canonical(b)
    ensures PathPrefixOf(a, a) && PathPrefixOf("/", a)
    ensures PathPrefixOf(a, b) && PathPrefixOf(b, a) ==> a == b
    ensures PathPrefixOf(a, b) && PathPrefixOf(b, c) ==> PathPrefixOf(a, c)
  {
    PrefixIsSegmentPrefix(a, a);
    PrefixIsSegmentPrefix(a, b);
    PrefixIsSegmentPrefix(b, a);
    PrefixIsSegmentPrefix(b, c);
    PrefixIsSegmentPrefix(a, c);
    CanonicalPathLaw(a);
    CanonicalPathLaw(b);
    if Segments(a) == Segments(b) && a != b { SameSegments(a, b); }
  }

  lemma {:induction false} SameSegments(a: string, b: string)
    requires Canonical(a) && Canonical(b) && Segments(a) == Segments(b)
    ensures a == b
  {
    if a != "/" && b != "/" {
      JoinSplit(a[1..]);
      JoinSplit(b[1..]);
      assert a == "/" + a[1..] && b == "/" + b[1..];
    }
  }

  // ---- verbs ----

  predicate HasSuffix(s: string, suffix: string) {
    |suffix| <= |s| && s[|s| - |suffix|..] == suffix
  }

  /** One granted pattern, as verbMatches tests it. */
  predicate GrantMatches(g: string, verb: string) {
    || g == "*"
    || g == verb
    || (HasSuffix(g, ".*") && !("*" <= g) && g[..|g| - 2] + "." <= verb)
    || ("*." <= g && !HasSuffix(g, ".*") && HasSuffix(verb, g[1..]))
  }

  /** What a granted pattern stands for. */
  datatype Grant = Everything | InNamespace(ns: string) | InEveryNamespace(action: string) | Exactly(verb: string)

  function ParseGrant(g: string): Grant {
    if g == "*" then Everything
    else if HasSuffix(g, ".*") && g[0] != '*' then InNamespace(g[..|g| - 2])
    else if |g| >= 2 && g[..2] == "*." && !HasSuffix(g, ".*") then InEveryNamespace(g[2..])
    else Exactly(g)
  }

  /** How each form is written. */
  lemma {:induction false} GrantForms(x: string)
    ensures ParseGrant("*") == Everything
    ensures x != "" && x[0] != '*' ==> ParseGrant(x + ".*") == InNamespace(x)
    ensures x != "*" && !HasSuffix(x, ".*") ==> ParseGrant("*." + x) == InEveryNamespace(x)
    ensures '*' !in x ==> ParseGrant(x) == Exactly(x)
  {
    if x != "" && x[0] != '*' { NamespaceForm(x); }
    if x != "*" && !HasSuffix(x, ".*") { ActionForm(x); }
    if '*' !in x { VerbForm(x); }
  }

  lemma {:induction false} DotStar(s: string)
    ensures HasSuffix(s, ".*") <==> |s| >= 2 && s[|s| - 2] == '.' && s[|s| - 1] == '*'
  {
    if |s| >= 2 { assert s[|s| - 2..] == [s[|s| - 2], s[|s| - 1]]; }
  }

  lemma {:induction false} NamespaceForm(x: string)
    requires x != "" && x[0] != '*'
    ensures ParseGrant(x + ".*") == InNamespace(x)
  {
    var g := x + ".*";
    DotStar(g);
    assert g[0] == x[0] && g[..|g| - 2] == x;
  }

  lemma {:induction false} ActionForm(x: string)
    requires x != "*" && !HasSuffix(x, ".*")
    ensures ParseGrant("*." + x) == InEveryNamespace(x)
  {
    var g := "*." + x;
    DotStar(g);
    DotStar(x);
    assert g[0] == '*' && g[1] == '.' && g[2..] == x && g[..2] == "*.";
    assert |x| == 1 ==> x == [x[0]];
  }

  lemma {:induction false} VerbForm(x: string)
    requires '*' !in x
    ensures ParseGrant(x) == Exactly(x)
  {
    DotStar(x);
    StarPrefix(x);
    assert |x| >= 2 ==> x[..2] == [x[0], x[1]];
  }

  ghost predicate Grants(grant: Grant, verb: string) {
    match grant
    case Everything => true
    case InNamespace(ns) => exists rest :: verb == ns + "." + rest
    case InEveryNamespace(action) => exists ns :: verb == ns + "." + action
    case Exactly(v) => verb == v
  }

  lemma {:induction false} NamespaceMeaning(ns: string, verb: string)
    ensures ns + "." <= verb <==> exists rest :: verb == ns + "." + rest
  {
    if ns + "." <= verb { assert verb == ns + "." + verb[|ns| + 1..]; }
  }

  lemma {:induction false} SuffixSplits(s: string, suffix: string)
    requires HasSuffix(s, suffix)
    ensures s == s[..|s| - |suffix|] + suffix
  {
  }

  lemma {:induction false} EndsInSuffix(s: string, suffix: string)
    ensures HasSuffix(s + suffix, suffix)
  {
  }

  lemma {:induction false} ActionMeaning(action: string, verb: string)
    ensures HasSuffix(verb, "." + action) <==> exists ns :: verb == ns + "." + action
  {
    if HasSuffix(verb, "." + action) {
      SuffixSplits(verb, "." + action);
      var ns := verb[..|verb| - |"." + action|];
      assert ns + ("." + action) == ns + "." + action;
    }
    if ns :| verb == ns + "." + action {
      EndsInSuffix(ns, "." + action);
      assert ns + ("." + action) == ns + "." + action;
    }
  }

  lemma {:induction false} StarPrefix(g: string)
    ensures "*" <= g <==> g != "" && g[0] == '*'
    ensures "*." <= g <==> |g| >= 2 && g[..2] == "*."
  {
  }

  /** verbMatches grants exactly the verbs the pattern stands for. */
  lemma {:induction false} GrantMeaning(g: string, verb: string)
    ensures GrantMatches(g, verb) <==> Grants(ParseGrant(g), verb)
  {
    StarPrefix(g);
    if ParseGrant(g).InNamespace? {
      NamespaceGrant(g, verb);
    } else if ParseGrant(g).InEveryNamespace? {
      ActionGrant(g, verb);
    }
  }

  lemma {:induction false} NamespaceGrant(g: string, verb: string)
    requires g != "*" && HasSuffix(g, ".*") && g[0] != '*'
    ensures GrantMatches(g, verb) <==> Grants(InNamespace(g[..|g| - 2]), verb)
  {
    var ns := g[..|g| - 2];
    StarPrefix(g);
    NamespaceMeaning(ns, verb);
    assert g == ns + "." + "*";
    NamespaceMeaning(ns, g);
  }

  lemma {:induction false} ActionGrant(g: string, verb: string)
    requires |g| >= 2 && g[..2] == "*." && !HasSuffix(g, ".*")
    ensures GrantMatches(g, verb) <==> Grants(InEveryNamespace(g[2..]), verb)
  {
    var action := g[2..];
    StarPrefix(g);
    assert g[1..] == "." + action;
    ActionMeaning(action, verb);
    ActionMeaning(action, g);
  }
}
