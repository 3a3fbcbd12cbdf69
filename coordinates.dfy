/** Maven coordinates `group:artifact:version`: the check that a package name
    is one, and the URL of its POM file on Maven Central (main.py:9-21). */
module Coordinates {

  import opened Options

  const MavenCentralBase: string := "https://repo1.maven.org/maven2"

  /** Python's `s.split(sep)` for a one-character separator: the pieces between
      consecutive separators, empty pieces included, never fewer than one. */
  function Split(s: string, sep: char): (parts: seq<string>)
    ensures |parts| >= 1
  {
    if s == [] then [""]
    else
      var rest := Split(s[1..], sep);
      if s[0] == sep then [""] + rest
      else [[s[0]] + rest[0]] + rest[1..]
  }

  /** `sep.join(parts)`, the inverse of Split. */
  function Join(parts: seq<string>, sep: char): string
    requires |parts| >= 1
  {
    if |parts| == 1 then parts[0] else parts[0] + [sep] + Join(parts[1..], sep)
  }

  /** Number of occurrences of `c` in `s`. */
  function Occurrences(s: string, c: char): nat
  {
    if s == [] then 0 else (if s[0] == c then 1 else 0) + Occurrences(s[1..], c)
  }

  /** Python's `s.replace(from, to)` for single characters. */
  function ReplaceChar(s: string, from: char, to: char): (r: string)
    ensures |r| == |s|
    ensures from != to ==> from !in r
    ensures forall i :: 0 <= i < |s| && s[i] != from ==> r[i] == s[i]
  {
    seq(|s|, i requires 0 <= i < |s| => if s[i] == from then to else s[i])
  }

  /** `validate_real_package`: exactly three colon-separated parts, none empty. */
  predicate ValidateRealPackage(package: string)
  {
    var parts := Split(package, ':');
    |parts| == 3 && forall i :: 0 <= i < |parts| ==> parts[i] != ""
  }

  /** `build_pom_url`: the tuple unpacking raises unless the name splits into
      exactly three parts (empty parts are accepted); `None` is that error. */
  function BuildPomUrl(package: string): Option<string>
  {
    var parts := Split(package, ':');
    if |parts| != 3 then None
    else
      var groupPath := ReplaceChar(parts[0], '.', '/');
      var pomFilename := parts[1] + "-" + parts[2] + ".pom";
      Some(MavenCentralBase + "/" + groupPath + "/" + parts[1] + "/" + parts[2] + "/" + pomFilename)
  }

  // ---------------------------------------------------------------------------
  // Properties of Split and Join

  /** Splitting and joining again gives back the original text. */
  lemma {:induction false} JoinSplit(s: string, sep: char)
    ensures Join(Split(s, sep), sep) == s
  {
    if s != [] {
      JoinSplit(s[1..], sep);
      var rest := Split(s[1..], sep);
      if s[0] == sep {
        assert Split(s, sep)[1..] == rest;
      } else {
        var parts := Split(s, sep);
        if |rest| == 1 {
          assert parts == [[s[0]] + rest[0]];
        } else {
          assert parts[1..] == rest[1..];
          assert Join(rest, sep) == rest[0] + [sep] + Join(rest[1..], sep);
        }
      }
    }
  }

  /** No piece of a split contains the separator. */
  lemma {:induction false} SplitPartsFree(s: string, sep: char)
    ensures forall i :: 0 <= i < |Split(s, sep)| ==> sep !in Split(s, sep)[i]
  {
    if s != [] {
      SplitPartsFree(s[1..], sep);
    }
  }

  /** A split has one more piece than there are separators. */
  lemma {:induction false} SplitCount(s: string, sep: char)
    ensures |Split(s, sep)| == Occurrences(s, sep) + 1
  {
    if s != [] {
      SplitCount(s[1..], sep);
    }
  }

  /** A separator-free head stays glued to the first piece of what follows. */
  lemma {:induction false} SplitFreeHead(a: string, t: string, sep: char)
    requires sep !in a
    ensures Split(a + t, sep) == [a + Split(t, sep)[0]] + Split(t, sep)[1..]
  {
    var ts := Split(t, sep);
    if a == [] {
      assert a + t == t && a + ts[0] == ts[0];
    } else {
      SplitFreeHead(a[1..], t, sep);
      assert (a + t)[0] == a[0] && a[0] != sep;
      assert (a + t)[1..] == a[1..] + t;
      var rest := Split(a[1..] + t, sep);
      assert rest[0] == a[1..] + ts[0] && rest[1..] == ts[1..];
      assert [a[0]] + (a[1..] + ts[0]) == a + ts[0];
    }
  }

  /** Joining separator-free pieces and splitting again gives back the pieces. */
  lemma {:induction false} SplitJoin(parts: seq<string>, sep: char)
    requires |parts| >= 1
    requires forall i :: 0 <= i < |parts| ==> sep !in parts[i]
    ensures Split(Join(parts, sep), sep) == parts
  {
    if |parts| == 1 {
      SplitFreeHead(parts[0], [], sep);
      assert parts[0] + [] == parts[0];
    } else {
      var tail := Join(parts[1..], sep);
      SplitJoin(parts[1..], sep);
      assert Split([sep] + tail, sep) == [""] + parts[1..];
      assert parts[0] + [sep] + tail == parts[0] + ([sep] + tail);
      SplitFreeHead(parts[0], [sep] + tail, sep);
      assert parts[0] + "" == parts[0];
    }
  }

  /** The group path of the URL (main.py:19) has exactly the dot-separated
      segments of the group id, now separated by `/`. */
  lemma {:induction false} GroupPathSegments(group: string)
    requires '/' !in group
    ensures Split(ReplaceChar(group, '.', '/'), '/') == Split(group, '.')
  {
    if group != [] {
      var r := ReplaceChar(group, '.', '/');
      assert r[1..] == ReplaceChar(group[1..], '.', '/');
      GroupPathSegments(group[1..]);
    }
  }

  // ---------------------------------------------------------------------------
  // Properties of validate_real_package and build_pom_url

  /** For colon-free parts, `g:a:v` is a valid package exactly when no part is
      empty, and its POM URL is the Maven Central path of the three parts. */
  lemma CoordinateUrl(g: string, a: string, v: string)
    requires ':' !in g && ':' !in a && ':' !in v
    ensures ValidateRealPackage(g + ":" + a + ":" + v) <==> g != "" && a != "" && v != ""
    ensures BuildPomUrl(g + ":" + a + ":" + v)
         == Some(MavenCentralBase + "/" + ReplaceChar(g, '.', '/') + "/" + a + "/" + v + "/" + a + "-" + v + ".pom")
  {
    var parts := [g, a, v];
    assert Join(parts[2..], ':') == v;
    assert Join(parts[1..], ':') == a + ":" + v;
    assert Join(parts, ':') == g + ":" + a + ":" + v;
    SplitJoin(parts, ':');
    assert Split(g + ":" + a + ":" + v, ':') == parts;
    var front := MavenCentralBase + "/" + ReplaceChar(g, '.', '/') + "/" + a + "/" + v + "/";
    assert front + (a + "-" + v + ".pom") == front + a + "-" + v + ".pom";
  }

  /** A valid package is the colon-join of its three non-empty, colon-free
      parts, and it always has a POM URL. */
  lemma ValidPackageShape(package: string)
    requires ValidateRealPackage(package)
    ensures var parts := Split(package, ':');
      && package == parts[0] + ":" + parts[1] + ":" + parts[2]
      && parts[0] != "" && parts[1] != "" && parts[2] != ""
      && ':' !in parts[0] && ':' !in parts[1] && ':' !in parts[2]
    ensures BuildPomUrl(package).Some?
  {
    var parts := Split(package, ':');
    JoinSplit(package, ':');
    SplitPartsFree(package, ':');
    assert Join(parts[1..], ':') == parts[1] + [':'] + Join(parts[2..], ':');
  }

  /** `build_pom_url` succeeds exactly when the name holds two colons. */
  lemma PomUrlDefined(package: string)
    ensures BuildPomUrl(package).Some? <==> Occurrences(package, ':') == 2
  {
    SplitCount(package, ':');
  }

}
