/** The helpers of the storefront's utility module: `cn` (class-name joining), `slugify` and
    `calculateDiscount`. */
module Utils {
  import opened Wrappers
  import opened Seqs
  import opened Strings

  // ---------------------------------------------------------------------------------------
  // cn

  /** An argument of `cn`: a class name, or a falsy value such as `undefined`, `null`,
      `false` or the result of a failed `cond && 'name'`. */
  datatype ClassArg = Name(name: string) | Falsy

  /** `Boolean(arg)`: a string is truthy exactly when it is not empty. */
  predicate Truthy(a: ClassArg) {
    a.Name? && a.name != []
  }

  /** The truthy arguments' names, in argument order: `inputs.filter(Boolean)`. */
  function Names(args: seq<ClassArg>): (r: seq<string>)
    ensures |r| <= |args|
    ensures forall i :: 0 <= i < |r| ==> r[i] != []
    ensures r == [] <==> forall i :: 0 <= i < |args| ==> !Truthy(args[i])
  {
    if args == [] then []
    else (if Truthy(args[0]) then [args[0].name] else []) + Names(args[1..])
  }

  /** `filter(Boolean)` works argument by argument and keeps their order: a single argument
      gives its name when truthy and nothing otherwise, and the names of a concatenation are
      the names of the first part followed by those of the second. */
  lemma {:induction false} NamesInOrder(a: seq<ClassArg>, b: seq<ClassArg>, x: ClassArg)
    ensures Names([x]) == if Truthy(x) then [x.name] else []
    ensures Names(a + b) == Names(a) + Names(b)
    decreases |a|
  {
    assert [x][1..] == [];
    if a == [] {
      assert a + b == b;
    } else {
      assert (a + b)[1..] == a[1..] + b;
      NamesInOrder(a[1..], b, x);
    }
  }

  /** `parts.join(sep)`. */
  function Join(parts: seq<string>, sep: char): string {
    if parts == [] then []
    else if |parts| == 1 then parts[0]
    else parts[0] + [sep] + Join(parts[1..], sep)
  }

  /** `cn(...inputs)`. */
  function Cn(args: seq<ClassArg>): string {
    Join(Names(args), ' ')
  }

  /** `s.split(sep)` for a one-character separator: the pieces between separators, at least
      one. */
  function Split(s: string, sep: char): (r: seq<string>)
    ensures |r| >= 1
  {
    if s == [] then [[]]
    else
      var rest := Split(s[1..], sep);
      if s[0] == sep then [[]] + rest else [[s[0]] + rest[0]] + rest[1..]
  }

  /** Splitting a piece without separators followed by a separator and more text. */
  lemma {:induction false} SplitPiece(a: string, b: string, sep: char)
    requires forall i :: 0 <= i < |a| ==> a[i] != sep
    ensures Split(a + b, sep) == [a + Split(b, sep)[0]] + Split(b, sep)[1..]
  {
    var r := Split(b, sep);
    if a != [] {
      SplitPiece(a[1..], b, sep);
      var t := a[1..] + b;
      assert a + b == [a[0]] + t;
      SplitCons(a[0], t, sep);
      assert [a[0]] + (a[1..] + r[0]) == a + r[0];
    } else {
      assert a + b == b && a + r[0] == r[0];
      assert [r[0]] + r[1..] == r;
    }
  }

  /** A character other than the separator joins the first piece. */
  lemma SplitCons(c: char, t: string, sep: char)
    requires c != sep
    ensures Split([c] + t, sep) == [[c] + Split(t, sep)[0]] + Split(t, sep)[1..]
  {
    assert ([c] + t)[1..] == t;
  }

  /** Joining with a separator that no part contains can be undone by splitting on it. */
  lemma {:induction false} SplitJoin(parts: seq<string>, sep: char)
    requires parts != []
    requires forall i, j :: 0 <= i < |parts| && 0 <= j < |parts[i]| ==> parts[i][j] != sep
    ensures Split(Join(parts, sep), sep) == parts
  {
    if |parts| == 1 {
      var e: string := [];
      SplitPiece(parts[0], e, sep);
      assert parts[0] + e == parts[0] == Join(parts, sep);
      assert Split(e, sep) == [[]];
      assert Split(parts[0], sep) == [parts[0] + []] + [];
      assert [parts[0] + []] + [] == parts;
    } else {
      var rest := Join(parts[1..], sep);
      SplitJoin(parts[1..], sep);
      SplitPiece(parts[0], [sep] + rest, sep);
      assert parts[0] + [sep] + rest == parts[0] + ([sep] + rest);
      assert ([sep] + rest)[1..] == rest;
      var tail := Split([sep] + rest, sep);
      assert tail == [[]] + parts[1..];
      assert tail[0] == [] && tail[1..] == parts[1..];
      assert parts[0] + [] == parts[0];
      assert parts == [parts[0]] + parts[1..];
    }
  }

  /** `cn()` is empty, and `cn(...)` is empty exactly when no argument is truthy. */
  lemma CnEmptyIff(args: seq<ClassArg>)
    ensures Cn([]) == []
    ensures Cn(args) == [] <==> forall i :: 0 <= i < |args| ==> !Truthy(args[i])
  {
    var names := Names(args);
    if names != [] && |names| > 1 {
      assert |Cn(args)| >= |names[0]| + 1;
    }
  }

  /** When no class name contains a space, the result splits back into exactly the truthy
      names in argument order: each one once, separated by single spaces. */
  lemma CnSplitsIntoNames(args: seq<ClassArg>)
    requires forall i, j :: 0 <= i < |args| && args[i].Name? && 0 <= j < |args[i].name| ==>
               args[i].name[j] != ' '
    requires exists i :: 0 <= i < |args| && Truthy(args[i])
    ensures Split(Cn(args), ' ') == Names(args)
  {
    NamesHaveNoSpace(args);
    SplitJoin(Names(args), ' ');
  }

  lemma {:induction false} NamesHaveNoSpace(args: seq<ClassArg>)
    requires forall i, j :: 0 <= i < |args| && args[i].Name? && 0 <= j < |args[i].name| ==>
               args[i].name[j] != ' '
    ensures forall i, j :: 0 <= i < |Names(args)| && 0 <= j < |Names(args)[i]| ==> Names(args)[i][j] != ' '
  {
    if args != [] {
      NamesHaveNoSpace(args[1..]);
      assert forall i, j :: 1 <= i < |args| && args[i].Name? && 0 <= j < |args[i].name| ==>
               args[i].name[j] != ' ';
    }
  }

  // ---------------------------------------------------------------------------------------
  // slugify

  /** `\w` without the `u` flag: ASCII letters, digits and the underscore. */
  predicate IsWordChar(c: char) {
    IsLower(c) || IsUpper(c) || IsDigit(c) || c == '_'
  }

  predicate IsAlnum(c: char) {
    IsLower(c) || IsUpper(c) || IsDigit(c)
  }

  /** What `[^\w\s-]` does not match, so that the first `replace` keeps it. */
  predicate Allowed(c: char) {
    IsWordChar(c) || IsSpace(c) || c == '-'
  }

  function AllowedTest(): char -> bool {
    (c: char) => Allowed(c)
  }

  /** What `[\s_-]` matches. */
  predicate IsSep(c: char) {
    IsSpace(c) || c == '_' || c == '-'
  }

  /** The leading separators removed. */
  function DropSeps(s: string): (r: string)
    ensures |r| <= |s| && r == s[|s| - |r|..]
    ensures r == [] || !IsSep(r[0])
    ensures forall i :: 0 <= i < |s| - |r| ==> IsSep(s[i])
  {
    if s != [] && IsSep(s[0]) then DropSeps(s[1..]) else s
  }

  /** `.replace(/[\s_-]+/g, '-')`: every maximal run of separators becomes one dash. */
  function Collapse(s: string): (r: string)
    decreases |s|
  {
    if s == [] then []
    else if IsSep(s[0]) then ['-'] + Collapse(DropSeps(s[1..]))
    else [s[0]] + Collapse(s[1..])
  }

  /** The end of the run of dashes that starts at `i`: every character skipped is a dash,
      and the one found, if any, is not. */
  function DashRunEnd(s: string, i: nat): (r: nat)
    requires i <= |s|
    ensures i <= r <= |s|
    ensures forall k :: i <= k < r ==> s[k] == '-'
    ensures r == |s| || s[r] != '-'
    decreases |s| - i
  {
    if i < |s| && s[i] == '-' then DashRunEnd(s, i + 1) else i
  }

  /** The start of the run of dashes that ends just before `j`: every character passed over
      is a dash, and the one before it, if any, is not. */
  function DashRunStart(s: string, j: nat): (r: nat)
    requires j <= |s|
    ensures r <= j
    ensures forall k :: r <= k < j ==> s[k] == '-'
    ensures r == 0 || s[r - 1] != '-'
  {
    if j > 0 && s[j - 1] == '-' then DashRunStart(s, j - 1) else j
  }

  /** `.replace(/^-+|-+$/g, '')`: the text between the leading and the trailing run of
      dashes; a text of dashes only leaves nothing. */
  function TrimDashes(s: string): string {
    var lo := DashRunEnd(s, 0);
    var hi := DashRunStart(s, |s|);
    if lo < hi then s[lo..hi] else []
  }

  /** `slugify(text)`: lower-case, trim, drop every character that is not a word character,
      white space or a dash, turn separator runs into single dashes, and strip dashes at both
      ends. */
  function Slugify(text: string): string {
    TrimDashes(Collapse(Keep(Trim(Lower(text)), AllowedTest())))
  }

  predicate SlugChar(c: char) {
    IsLower(c) || IsDigit(c) || c == '-'
  }

  /** The shape of every slug: lower-case letters, digits and dashes, no dash at either end
      and no two dashes in a row. */
  predicate IsSlug(s: string) {
    && (forall i :: 0 <= i < |s| ==> SlugChar(s[i]))
    && (s == [] || (s[0] != '-' && s[|s| - 1] != '-'))
    && (forall i :: 0 <= i < |s| - 1 ==> s[i] != '-' || s[i + 1] != '-')
  }

  /** A dash in the collapsed text is never followed by another dash. */
  predicate NoDoubleDash(s: string) {
    forall i :: 0 <= i < |s| - 1 ==> s[i] != '-' || s[i + 1] != '-'
  }

  /** What `Collapse` emits: a dash, or a non-separator character of its input. */
  lemma CollapseChars(s: string)
    ensures forall i :: 0 <= i < |Collapse(s)| ==>
              Collapse(s)[i] == '-' || (Collapse(s)[i] in s && !IsSep(Collapse(s)[i]))
    ensures NoDoubleDash(Collapse(s))
  {
    CollapseOrigins(s);
    CollapseNoDoubleDash(s);
  }

  lemma {:induction false} CollapseOrigins(s: string)
    ensures forall i :: 0 <= i < |Collapse(s)| ==>
              Collapse(s)[i] == '-' || (Collapse(s)[i] in s && !IsSep(Collapse(s)[i]))
    decreases |s|
  {
    if s != [] {
      if IsSep(s[0]) {
        var t := DropSeps(s[1..]);
        CollapseOrigins(t);
        forall x | x in t ensures x in s { }
      } else {
        CollapseOrigins(s[1..]);
      }
    }
  }

  /** A collapsed text opens with a dash only when the input opens with a separator. */
  lemma CollapseHead(s: string)
    requires s == [] || !IsSep(s[0])
    ensures Collapse(s) == [] || Collapse(s)[0] != '-'
  {
  }

  lemma {:induction false} CollapseNoDoubleDash(s: string)
    ensures NoDoubleDash(Collapse(s))
    decreases |s|
  {
    if s != [] {
      var c := Collapse(s);
      var t := if IsSep(s[0]) then DropSeps(s[1..]) else s[1..];
      var rest := Collapse(t);
      CollapseNoDoubleDash(t);
      assert c == [c[0]] + rest;
      if IsSep(s[0]) {
        CollapseHead(t);
      } else {
        assert c[0] != '-';
      }
      forall i | 0 <= i < |c| - 1 ensures c[i] != '-' || c[i + 1] != '-' {
        if i > 0 {
          assert c[i] == rest[i - 1] && c[i + 1] == rest[i];
        }
      }
    }
  }

  /** `Collapse` keeps every non-separator character. */
  lemma {:induction false} CollapseKeeps(s: string, k: int)
    requires 0 <= k < |s| && !IsSep(s[k])
    ensures s[k] in Collapse(s)
    decreases |s|
  {
    if k > 0 {
      if IsSep(s[0]) {
        var t := DropSeps(s[1..]);
        var d := |s| - |t|;
        assert s[k] == t[k - d];
        CollapseKeeps(t, k - d);
      } else {
        assert s[k] == s[1..][k - 1];
        CollapseKeeps(s[1..], k - 1);
      }
    }
  }

  /** Text without white space, underscores or doubled dashes is left as it is. */
  lemma {:induction false} CollapseFixes(s: string)
    requires forall i :: 0 <= i < |s| ==> !IsSpace(s[i]) && s[i] != '_'
    requires NoDoubleDash(s)
    ensures Collapse(s) == s
    decreases |s|
  {
    if s != [] {
      assert NoDoubleDash(s[1..]);
      CollapseFixes(s[1..]);
      if IsSep(s[0]) {
        assert DropSeps(s[1..]) == s[1..];
      }
    }
  }

  /** Text made only of separators collapses to at most one dash. */
  lemma {:induction false} CollapseSeps(s: string)
    requires forall i :: 0 <= i < |s| ==> IsSep(s[i])
    ensures Collapse(s) == [] || Collapse(s) == ['-']
  {
    if s != [] {
      assert DropSeps(s[1..]) == [];
    }
  }

  /** Trimming cuts white space only: a character that is not white space survives. */
  lemma TrimKeepsNonSpace(s: string, k: int)
    requires 0 <= k < |s| && !IsSpace(s[k])
    ensures s[k] in Trim(s)
  {
    var t := TrimStart(s);
    var d := |s| - |t|;
    assert t[k - d] == s[k];
    var r := TrimEnd(t);
    assert r[k - d] == s[k];
  }

  /** Each character of a trimmed string sits in the original at the same place, shifted by
      the white space cut at the front. */
  lemma TrimCharFromInput(s: string, i: int)
    requires 0 <= i < |Trim(s)|
    ensures var d := |s| - |TrimStart(s)|; 0 <= i + d < |s| && Trim(s)[i] == s[i + d]
  {
    var t := TrimStart(s);
    assert Trim(s)[i] == t[i];
  }

  /** Cutting dashes at the ends keeps every other character. */
  lemma TrimDashesKeeps(s: string, k: int)
    requires 0 <= k < |s| && s[k] != '-'
    ensures s[k] in TrimDashes(s)
  {
    var lo := DashRunEnd(s, 0);
    var hi := DashRunStart(s, |s|);
    assert lo <= k < hi;
    assert s[lo..hi][k - lo] == s[k];
  }

  /** A character that survives the first three steps is lower-case, a digit or a
      separator. */
  lemma KeptChar(text: string, c: char)
    requires c in Keep(Trim(Lower(text)), AllowedTest())
    ensures IsLower(c) || IsDigit(c) || IsSep(c)
  {
    var lowered := Lower(text);
    var trimmed := Trim(lowered);
    assert AllowedTest()(c) && c in trimmed;
    var k :| 0 <= k < |trimmed| && trimmed[k] == c;
    TrimCharFromInput(lowered, k);
  }

  /** After the collapse step only slug characters are left, and no two dashes meet. */
  lemma CollapsedShape(text: string)
    ensures var collapsed := Collapse(Keep(Trim(Lower(text)), AllowedTest()));
      (forall i :: 0 <= i < |collapsed| ==> SlugChar(collapsed[i])) && NoDoubleDash(collapsed)
  {
    var kept := Keep(Trim(Lower(text)), AllowedTest());
    var collapsed := Collapse(kept);
    CollapseChars(kept);
    forall i | 0 <= i < |collapsed| ensures SlugChar(collapsed[i]) {
      if collapsed[i] != '-' {
        KeptChar(text, collapsed[i]);
      }
    }
  }

  /** Cutting the dashes at both ends of such a text gives a slug. */
  lemma TrimDashesShape(c: string)
    requires forall i :: 0 <= i < |c| ==> SlugChar(c[i])
    requires NoDoubleDash(c)
    ensures IsSlug(TrimDashes(c))
  {
    var lo := DashRunEnd(c, 0);
    var hi := DashRunStart(c, |c|);
    if lo < hi {
      var r := c[lo..hi];
      InfixShape(c, r, lo);
      assert r[0] == c[lo] && r[|r| - 1] == c[hi - 1];
    }
  }

  /** A stretch of a text made of slug characters with no double dash has the same two
      properties. */
  lemma InfixShape(c: string, r: string, lo: int)
    requires 0 <= lo && lo + |r| <= |c|
    requires forall i :: 0 <= i < |r| ==> r[i] == c[lo + i]
    requires forall i :: 0 <= i < |c| ==> SlugChar(c[i])
    requires NoDoubleDash(c)
    ensures forall i :: 0 <= i < |r| ==> SlugChar(r[i])
    ensures NoDoubleDash(r)
  {
    forall i | 0 <= i < |r| - 1 ensures r[i] != '-' || r[i + 1] != '-' {
      assert r[i] == c[lo + i] && r[i + 1] == c[lo + i + 1];
    }
  }

  /** Every slug has the slug shape. */
  lemma SlugifyIsSlug(text: string)
    ensures IsSlug(Slugify(text))
  {
    CollapsedShape(text);
    TrimDashesShape(Collapse(Keep(Trim(Lower(text)), AllowedTest())));
  }

  /** Lower-casing, trimming and the first `replace` leave a slug alone ... */
  lemma SlugSurvivesFirstSteps(s: string)
    requires IsSlug(s)
    ensures Keep(Trim(Lower(s)), AllowedTest()) == s
  {
    LowerFixes(s);
    assert Lower(s) == s;
    TrimFixes(s);
    assert Trim(s) == s;
    assert Trim(Lower(s)) == s;
    AllAllowed(s);
    KeepAll(s, AllowedTest());
  }

  lemma AllAllowed(s: string)
    requires forall i :: 0 <= i < |s| ==> SlugChar(s[i])
    ensures forall i :: 0 <= i < |s| ==> AllowedTest()(s[i])
  {
  }

  lemma LowerFixes(s: string)
    requires forall i :: 0 <= i < |s| ==> !IsUpper(s[i])
    ensures Lower(s) == s
  {
  }

  lemma TrimFixes(s: string)
    requires s == [] || (!IsSpace(s[0]) && !IsSpace(s[|s| - 1]))
    ensures Trim(s) == s
  {
    assert TrimStart(s) == s;
  }

  /** ... and so do the last two. */
  lemma SlugSurvivesLastSteps(s: string)
    requires IsSlug(s)
    ensures TrimDashes(Collapse(s)) == s
  {
    CollapseFixes(s);
    if s != [] {
      assert DashRunEnd(s, 0) == 0 && DashRunStart(s, |s|) == |s|;
      assert s[0..|s|] == s;
    }
  }

  /** A slug is its own slug. */
  lemma SlugIsFixedPoint(s: string)
    requires IsSlug(s)
    ensures Slugify(s) == s
  {
    SlugSurvivesFirstSteps(s);
    SlugSurvivesLastSteps(s);
  }

  /** `slugify` is idempotent. */
  lemma SlugifyIdempotent(text: string)
    ensures Slugify(Slugify(text)) == Slugify(text)
  {
    SlugifyIsSlug(text);
    SlugIsFixedPoint(Slugify(text));
  }

  /** A letter or digit of the text survives, lower-cased, into the slug. */
  lemma AlnumSurvives(text: string, i: int)
    requires 0 <= i < |text| && IsAlnum(text[i])
    ensures LowerChar(text[i]) in Slugify(text)
  {
    var kept := Keep(Trim(Lower(text)), AllowedTest());
    var c := LowerChar(text[i]);
    AlnumKept(text, i);
    LowerAlnum(text[i]);
    var k :| 0 <= k < |kept| && kept[k] == c;
    NonSepSurvivesLastSteps(kept, k);
  }

  /** Lower-casing a letter or digit gives a letter or digit, never a separator. */
  lemma LowerAlnum(c: char)
    requires IsAlnum(c)
    ensures IsAlnum(LowerChar(c)) && !IsSep(LowerChar(c))
  {
    if IsUpper(c) {
      assert IsLower(LowerChar(c));
    }
  }

  lemma AlnumKept(text: string, i: int)
    requires 0 <= i < |text| && IsAlnum(text[i])
    ensures LowerChar(text[i]) in Keep(Trim(Lower(text)), AllowedTest())
  {
    var lowered := Lower(text);
    var trimmed := Trim(lowered);
    var c := lowered[i];
    TrimKeepsNonSpace(lowered, i);
    KeepCount(trimmed, AllowedTest(), c);
  }

  lemma NonSepSurvivesLastSteps(s: string, k: int)
    requires 0 <= k < |s| && !IsSep(s[k])
    ensures s[k] in TrimDashes(Collapse(s))
  {
    var collapsed := Collapse(s);
    CollapseKeeps(s, k);
    var m :| 0 <= m < |collapsed| && collapsed[m] == s[k];
    TrimDashesKeeps(collapsed, m);
  }

  /** Without letters and digits only separators survive the first steps, which collapse to
      at most one dash, and that dash is cut. */
  lemma NoAlnumNoSlug(text: string)
    requires forall i :: 0 <= i < |text| ==> !IsAlnum(text[i])
    ensures Slugify(text) == []
  {
    var lowered := Lower(text);
    var trimmed := Trim(lowered);
    var kept := Keep(trimmed, AllowedTest());
    forall j | 0 <= j < |kept| ensures IsSep(kept[j]) {
      var c := kept[j];
      assert c in kept && AllowedTest()(c) && c in trimmed;
      var k :| 0 <= k < |trimmed| && trimmed[k] == c;
      TrimCharFromInput(lowered, k);
    }
    CollapseSeps(kept);
  }

  /** The slug is empty exactly when the text holds no ASCII letter or digit: white space,
      underscores, dashes and punctuation alone slugify to nothing. */
  lemma SlugifyEmptyIff(text: string)
    ensures Slugify(text) == [] <==> forall i :: 0 <= i < |text| ==> !IsAlnum(text[i])
  {
    if i :| 0 <= i < |text| && IsAlnum(text[i]) {
      AlnumSurvives(text, i);
    } else {
      NoAlnumNoSlug(text);
    }
  }

  // ---------------------------------------------------------------------------------------
  // calculateDiscount

  /** `Math.round`: the nearest integer, halves rounded up. */
  function Round(x: real): (r: int)
    ensures x - 0.5 < r as real <= x + 0.5
  {
    (x + 0.5).Floor
  }

  /** `calculateDiscount(originalPrice, salePrice)`: the percentage saved, rounded. An original
      price of 0 divides by zero (NaN or an infinity in JavaScript): no number. */
  function CalculateDiscount(originalPrice: real, salePrice: real): Option<int> {
    if originalPrice == 0.0 then None
    else Some(Round((originalPrice - salePrice) / originalPrice * 100.0))
  }

  /** Equal prices save nothing; a free item saves everything; a sale price between 0 and
      the original price saves between 0 and 100 percent. */
  lemma DiscountBounds(originalPrice: real, salePrice: real)
    requires originalPrice > 0.0
    ensures CalculateDiscount(originalPrice, originalPrice) == Some(0)
    ensures CalculateDiscount(originalPrice, 0.0) == Some(100)
    ensures 0.0 <= salePrice <= originalPrice ==>
      var d := CalculateDiscount(originalPrice, salePrice);
      d.Some? && 0 <= d.value <= 100
  {
    if 0.0 <= salePrice <= originalPrice {
      var x := (originalPrice - salePrice) / originalPrice;
      assert x * originalPrice == originalPrice - salePrice;
    }
    assert (originalPrice - originalPrice) / originalPrice == 0.0;
    assert (originalPrice - 0.0) / originalPrice == 1.0;
  }

  /** The rounding is half-up: a saving of exactly 12.5 percent shows as 13. */
  lemma RoundsHalfUp()
    ensures CalculateDiscount(8.0, 7.0) == Some(13)
  {
    assert (8.0 - 7.0) / 8.0 * 100.0 == 12.5;
  }
}
