/**
 * pkg/gen/template/template.go, second part: the helpers the README template
 * calls (its FuncMap). They are pure string functions: code fences around a
 * snippet, the collapse of a body to `{ ... }` done by the greedy regular
 * expression `{(?s).*}`, a section lookup, and the naming and position
 * helpers.
 */
module TemplateFuncs {
  import opened Wrappers
  import opened Strings
  import opened Doc

  /**
   * The inverse of wrapping a string between `open` and `close`: the part in
   * between when `r` has that shape.
   */
  function Unwrap(open: string, close: string, r: string): (m: Option<string>)
    ensures m.Some? <==> |open| + |close| <= |r| && HasPrefix(r, open) && HasSuffix(r, close)
    ensures m.Some? ==> open + m.value + close == r
  {
    if |open| + |close| <= |r| && r[..|open|] == open && r[|r| - |close|..] == close
    then
      var mid := r[|open|..|r| - |close|];
      assert r == r[..|open|] + mid + r[|r| - |close|..];
      Some(mid)
    else None
  }

  /** `gocode`: a fenced Go block holding `s` exactly. */
  function GoCode(s: string): (r: string)
    ensures |r| == |s| + 11
    ensures HasPrefix(r, "```go\n") && HasSuffix(r, "\n```\n")
  {
    "```go\n" + s + "\n```\n"
  }

  /** `code`: a plain fenced block; the body always ends in a newline, added only when `s` lacks one. */
  function Code(s: string): (r: string)
    ensures HasPrefix(r, "```\n") && HasSuffix(r, "\n```\n")
    ensures |r| == |s| + (if HasSuffix(s, "\n") then 8 else 9)
  {
    var body := if !HasSuffix(s, "\n") then s + "\n" else s;
    assert body[|body| - 1] == '\n';
    var r := "```\n" + body + "```\n";
    assert r[|r| - 5..] == [body[|body| - 1]] + "```\n";
    r
  }

  /** `inlineCode`: `s` between backticks. */
  function InlineCode(s: string): (r: string)
    ensures |r| == |s| + 2 && r[0] == '`' && r[|r| - 1] == '`'
  {
    "`" + s + "`"
  }

  /** The first index of `c` in `s`, or -1 (strings.Index for one character). */
  function IndexOf(s: string, c: char): (r: int)
    ensures -1 <= r < |s|
    ensures r >= 0 ==> s[r] == c && c !in s[..r]
    ensures r == -1 <==> c !in s
  {
    if s == [] then -1
    else if s[0] == c then 0
    else
      var k := IndexOf(s[1..], c);
      assert s == [s[0]] + s[1..];
      if k < 0 then -1
      else
        assert s[..k + 1] == [s[0]] + s[1..][..k];
        k + 1
  }

  /** The last index of `c` in `s`, or -1 (strings.LastIndex for one character). */
  function LastIndexOf(s: string, c: char): (r: int)
    ensures -1 <= r < |s|
    ensures r >= 0 ==> s[r] == c && c !in s[r + 1..]
    ensures r == -1 <==> c !in s
  {
    if s == [] then -1
    else if s[|s| - 1] == c then |s| - 1
    else
      assert s == s[..|s| - 1] + [s[|s| - 1]];
      var k := LastIndexOf(s[..|s| - 1], c);
      if k >= 0 then
        assert s[k + 1..] == s[..|s| - 1][k + 1..] + [s[|s| - 1]];
        k
      else k
  }

  const Ellipsis: string := "{ ... }"

  /** `s` holds a `{` somewhere before a `}`: the regular expression `{(?s).*}` matches. */
  ghost predicate HasBracePair(s: string) {
    exists i, j | 0 <= i < j < |s| :: s[i] == '{' && s[j] == '}'
  }

  /**
   * Replacing every match of `{(?s).*}` with `{ ... }`. The leftmost match
   * starts at the first `{` that has a `}` after it, which is the first `{`
   * of the string, and `.*` is greedy and crosses newlines, so it ends at
   * the last `}`; nothing is left for a second match.
   */
  function CollapseBraces(s: string): (r: string)
    ensures !HasBracePair(s) ==> r == s
    ensures HasBracePair(s) ==>
      exists i, j | 0 <= i < j < |s| ::
        s[i] == '{' && s[j] == '}' && '{' !in s[..i] && '}' !in s[j + 1..] &&
        r == s[..i] + Ellipsis + s[j + 1..]
  {
    var i := IndexOf(s, '{');
    var j := LastIndexOf(s, '}');
    BracePairBounds(s);
    if 0 <= i < j then s[..i] + Ellipsis + s[j + 1..] else s
  }

  /** A brace pair exists exactly when the first `{` comes before the last `}`. */
  lemma BracePairBounds(s: string)
    ensures HasBracePair(s) <==> 0 <= IndexOf(s, '{') < LastIndexOf(s, '}')
  {
    var i := IndexOf(s, '{');
    var j := LastIndexOf(s, '}');
    if HasBracePair(s) {
      var i0, j0 :| 0 <= i0 < j0 < |s| && s[i0] == '{' && s[j0] == '}';
      assert s[i0] in s && s[j0] in s;
    }
  }

  /** `inlineCodeEllipsis`: the collapsed string between backticks. */
  function InlineCodeEllipsis(s: string): (r: string)
    ensures Unwrap("`", "`", r) == Some(CollapseBraces(s))
  {
    var c := CollapseBraces(s);
    assert ("`" + c + "`")[1..|c| + 1] == c;
    InlineCode(c)
  }

  /** `gocodeEllipsis`: the collapsed string in a Go fence. */
  function GoCodeEllipsis(s: string): (r: string)
    ensures Unwrap("```go\n", "\n```\n", r) == Some(CollapseBraces(s))
  {
    var c := CollapseBraces(s);
    GoCodeRoundTrip(c);
    GoCode(c)
  }

  /** `hasSection`: whether `section` is one of `sections` (slices.Contains). */
  function HasSection(sections: seq<string>, section: string): (r: bool)
    ensures r <==> section in sections
  {
    Contains(sections, section)
  }

  /** `importPath`: the package's import path. */
  function ImportPath(p: PackageInfo): string {
    p.importPath
  }

  /** `fullName`: the import path without one leading "github.com/". */
  function FullName(p: PackageInfo): (r: string)
    ensures HasPrefix(ImportPath(p), "github.com/") ==> "github.com/" + r == ImportPath(p)
    ensures !HasPrefix(ImportPath(p), "github.com/") ==> r == ImportPath(p)
  {
    TrimPrefix(ImportPath(p), "github.com/")
  }

  /** token.Pos: an offset into a file set; 0 is token.NoPos. */
  type Pos = int

  const NoPos: Pos := 0

  /** token.Position, the part the helpers use. */
  datatype Position = Position(filename: string, line: int)

  /**
   * `filename`: the base name of the file holding `pos`, or "" for NoPos.
   * The file-set lookup and filepath.Base are parameters.
   */
  function Filename(position: Pos -> Position, base: string -> string, pos: Pos): (r: string)
    ensures pos == NoPos ==> r == ""
    ensures pos != NoPos ==> r == base(position(pos).filename)
  {
    if pos == NoPos then "" else base(position(pos).filename)
  }

  /** `lineNumber`: the line of `pos`, or 0 for NoPos. */
  function LineNumber(position: Pos -> Position, pos: Pos): (r: int)
    ensures pos == NoPos ==> r == 0
    ensures pos != NoPos ==> r == position(pos).line
  {
    if pos == NoPos then 0 else position(pos).line
  }

  // ---------------------------------------------------------------------------
  // Properties

  /** `gocode` wraps exactly: unwrapping its fence gives `s` back. */
  lemma GoCodeRoundTrip(s: string)
    ensures Unwrap("```go\n", "\n```\n", GoCode(s)) == Some(s)
  {
    var r := GoCode(s);
    assert r[6..|r| - 5] == s;
  }

  /** `inlineCode` wraps exactly: unwrapping its backticks gives `s` back. */
  lemma InlineCodeRoundTrip(s: string)
    ensures Unwrap("`", "`", InlineCode(s)) == Some(s)
  {
    var r := InlineCode(s);
    assert r[1..|r| - 1] == s;
  }

  /** The body of a `code` block is `s` when it ends in a newline and `s` plus one newline otherwise. */
  lemma CodeRoundTrip(s: string)
    ensures Unwrap("```\n", "```\n", Code(s)) == Some(if HasSuffix(s, "\n") then s else s + "\n")
  {
    var body := if HasSuffix(s, "\n") then s else s + "\n";
    var r := Code(s);
    assert r == "```\n" + body + "```\n";
    assert r[4..|r| - 4] == body;
  }

  /** `code` cannot tell `s` from `s` plus its missing newline, and nothing else collides. */
  lemma CodeCollisions(a: string, b: string)
    ensures Code(a) == Code(b) <==>
      a == b || (a == b + "\n" && !HasSuffix(b, "\n")) || (b == a + "\n" && !HasSuffix(a, "\n"))
  {
    CodeRoundTrip(a);
    CodeRoundTrip(b);
    if a == b + "\n" && !HasSuffix(b, "\n") {
      assert a[|a| - 1] == '\n';
    }
    if b == a + "\n" && !HasSuffix(a, "\n") {
      assert b[|b| - 1] == '\n';
    }
    if Code(a) == Code(b) && !HasSuffix(a, "\n") && !HasSuffix(b, "\n") {
      assert a == (a + "\n")[..|a|];
      assert b == (b + "\n")[..|b|];
    }
  }

  /** The first occurrence is the one with no earlier occurrence. */
  lemma IndexOfAt(s: string, c: char, k: nat)
    requires k < |s| && s[k] == c && c !in s[..k]
    ensures IndexOf(s, c) == k
  {
  }

  /** The last occurrence is the one with no later occurrence. */
  lemma LastIndexOfAt(s: string, c: char, k: nat)
    requires k < |s| && s[k] == c && c !in s[k + 1..]
    ensures LastIndexOf(s, c) == k
  {
  }

  /** Collapsing is idempotent: the result's only brace pair is its own `{ ... }`. */
  lemma CollapseIdempotent(s: string)
    ensures CollapseBraces(CollapseBraces(s)) == CollapseBraces(s)
  {
    var i := IndexOf(s, '{');
    var j := LastIndexOf(s, '}');
    if 0 <= i < j {
      var r := s[..i] + Ellipsis + s[j + 1..];
      assert CollapseBraces(s) == r;
      CollapsedBraces(s, i, j);
      assert CollapseBraces(r) == r;
    } else {
      assert CollapseBraces(s) == s;
    }
  }

  /** In the collapsed string the first `{` and the last `}` are those of `{ ... }`. */
  lemma CollapsedBraces(s: string, i: nat, j: nat)
    requires i < j < |s| && '{' !in s[..i] && '}' !in s[j + 1..]
    ensures var r := s[..i] + Ellipsis + s[j + 1..];
      IndexOf(r, '{') == i && LastIndexOf(r, '}') == i + 6 && r[..i] + Ellipsis + r[i + 7..] == r
  {
    var r := s[..i] + Ellipsis + s[j + 1..];
    assert r[..i] == s[..i] && r[i] == '{';
    IndexOfAt(r, '{', i);
    assert r[i + 7..] == s[j + 1..] && r[i + 6] == '}';
    LastIndexOfAt(r, '}', i + 6);
  }

  /** Greedy: two brace pairs give one span from the first `{` to the last `}`, not one `{ ... }` per pair. */
  lemma CollapseGreedy(a: string, b: string, c: string, d: string, e: string)
    requires '{' !in a && '}' !in e
    ensures CollapseBraces(a + "{" + b + "}" + c + "{" + d + "}" + e) == a + Ellipsis + e
  {
    var s := a + "{" + b + "}" + c + "{" + d + "}" + e;
    var k := |s| - |e| - 1;
    assert s[..|a|] == a && s[|a|] == '{';
    IndexOfAt(s, '{', |a|);
    assert s[k + 1..] == e && s[k] == '}';
    LastIndexOfAt(s, '}', k);
  }

  /** A string whose last `}` comes before its first `{` has no match and stays as it is. */
  lemma CollapseNoPair(a: string, b: string)
    requires '{' !in a && '}' !in b
    ensures CollapseBraces(a + "{" + b) == a + "{" + b
  {
    var s := a + "{" + b;
    assert s[..|a|] == a && s[|a|] == '{';
    IndexOfAt(s, '{', |a|);
    assert s[|a| + 1..] == b;
    if '}' in a {
      var k := LastIndexOf(a, '}');
      assert s[k + 1..] == a[k + 1..] + "{" + b;
      LastIndexOfAt(s, '}', k);
    } else {
      assert '}' !in s;
    }
  }

  /** `fullName` removes exactly one leading "github.com/", whatever follows it. */
  lemma FullNameTrimsOnce(p: PackageInfo, rest: string)
    requires p.importPath == "github.com/" + rest
    ensures FullName(p) == rest
  {
    assert p.importPath[..11] == "github.com/";
    assert p.importPath[11..] == rest;
  }

  /** `fullName` is always a suffix of the import path, at most 11 characters shorter. */
  lemma FullNameSuffix(p: PackageInfo)
    ensures HasSuffix(p.importPath, FullName(p))
    ensures |FullName(p)| == |p.importPath| || |FullName(p)| + 11 == |p.importPath|
  {
    var r := FullName(p);
    if HasPrefix(p.importPath, "github.com/") {
      assert p.importPath[|p.importPath| - |r|..] == r;
    }
  }
}
