/** IgniteRepositoryFactory.isFieldQuery: whether a declared SQL string is a
    fields (projection) query rather than a whole-entity query. The source
    decides it with two whole-string matches, `(?i)^SELECT.*` and
    `(?i)^SELECT\s+(?:\w+\.)?+\*.*`; both patterns are written out here as
    languages over strings, next to a left-to-right matcher that follows how
    java.util.regex runs the second one, and the two are proved to agree. */
module FieldQuery {
  import opened JavaText

  /** `(?i)^SELECT`: the first six characters spell SELECT in any ASCII case. */
  predicate StartsWithSelect(s: string) {
    && |s| >= 6
    && AsciiUpper(s[0]) == 'S' && AsciiUpper(s[1]) == 'E' && AsciiUpper(s[2]) == 'L'
    && AsciiUpper(s[3]) == 'E' && AsciiUpper(s[4]) == 'C' && AsciiUpper(s[5]) == 'T'
  }

  /** Whole-string match of `(?i)^SELECT.*`. */
  predicate MatchesSelectAny(s: string) {
    StartsWithSelect(s) && NoLineTerminatorFrom(s, 6)
  }

  /** `\s` holds of every character of s[i..e]. */
  predicate SpacesBetween(s: string, i: nat, e: nat)
    requires i <= e <= |s|
  {
    forall k :: i <= k < e ==> IsRegexSpace(s[k])
  }

  /** `\w` holds of every character of s[i..e]. */
  predicate WordCharsBetween(s: string, i: nat, e: nat)
    requires i <= e <= |s|
  {
    forall k :: i <= k < e ==> IsWordChar(s[k])
  }

  /** The group `(?:\w+\.)` matches exactly s[i..j]. */
  predicate QualifierBetween(s: string, i: nat, j: nat)
    requires i <= j <= |s|
  {
    i + 2 <= j && s[j - 1] == '.' && WordCharsBetween(s, i, j - 1)
  }

  /** Some end j lets the group `(?:\w+\.)` match s[i..j]. */
  ghost predicate QualifierAt(s: string, i: nat)
    requires i <= |s|
  {
    exists j :: i <= j <= |s| && QualifierBetween(s, i, j)
  }

  /** The possessive group `(?:\w+\.)?+` consumes exactly s[i..j]: it takes the
      qualifier whenever one matches at i and then never gives it back, and
      matches the empty string only when no qualifier starts at i. */
  ghost predicate PossessiveQualifier(s: string, i: nat, j: nat)
    requires i <= j <= |s|
  {
    if QualifierAt(s, i) then QualifierBetween(s, i, j) else j == i
  }

  /** Whole-string match of `(?i)^SELECT\s+(?:\w+\.)?+\*.*`: SELECT, a non-empty
      run of `\s` ending at i, the possessive qualifier s[i..j], a star at j and
      a rest without line terminators. Every split the regex engine could try
      by backtracking `\s+` is one choice of i. */
  ghost predicate SelectStarPattern(s: string) {
    && StartsWithSelect(s)
    && exists i: nat, j: nat ::
         && 6 < i <= j < |s|
         && SpacesBetween(s, 6, i)
         && PossessiveQualifier(s, i, j)
         && s[j] == '*'
         && NoLineTerminatorFrom(s, j + 1)
  }

  /** End of the longest run of `\s` starting at i (greedy `\s+`). */
  function SpaceRunEnd(s: string, i: nat): (e: nat)
    requires i <= |s|
    ensures i <= e <= |s| && SpacesBetween(s, i, e)
    ensures e < |s| ==> !IsRegexSpace(s[e])
    decreases |s| - i
  {
    if i < |s| && IsRegexSpace(s[i]) then SpaceRunEnd(s, i + 1) else i
  }

  /** End of the longest run of `\w` starting at i (greedy `\w+`). */
  function WordRunEnd(s: string, i: nat): (e: nat)
    requires i <= |s|
    ensures i <= e <= |s| && WordCharsBetween(s, i, e)
    ensures e < |s| ==> !IsWordChar(s[e])
    decreases |s| - i
  {
    if i < |s| && IsWordChar(s[i]) then WordRunEnd(s, i + 1) else i
  }

  /** What `(?:\w+\.)?+` consumes from i as the matcher runs it: the greedy
      word run, if it is non-empty and followed by a dot, together with the
      dot; otherwise nothing. */
  function QualifierEnd(s: string, i: nat): (j: nat)
    requires i <= |s|
    ensures i <= j <= |s|
    ensures PossessiveQualifier(s, i, j)
  {
    var w := WordRunEnd(s, i);
    if i < w < |s| && s[w] == '.' then
      assert QualifierBetween(s, i, w + 1);
      QualifierUnique(s, i, w + 1);
      w + 1
    else
      QualifierNeedsDot(s, i, w);
      i
  }

  /** A qualifier that matches at i is unique: the word run is the longest one,
      because a dot is not a word character. */
  lemma QualifierUnique(s: string, i: nat, j: nat)
    requires i <= j <= |s| && QualifierBetween(s, i, j)
    ensures forall j' :: i <= j' <= |s| && QualifierBetween(s, i, j') ==> j' == j
  {
    assert !IsWordChar('.');
  }

  /** When the longest word run from i is empty or not followed by a dot, no
      qualifier matches at i. */
  lemma QualifierNeedsDot(s: string, i: nat, w: nat)
    requires i <= w <= |s| && WordCharsBetween(s, i, w) && (w < |s| ==> !IsWordChar(s[w]))
    requires !(i < w < |s| && s[w] == '.')
    ensures !QualifierAt(s, i)
  {
    assert !IsWordChar('.');
  }

  /** No qualifier starts at a character that is not `\w`. */
  lemma NoQualifierAt(s: string, i: nat)
    requires i < |s| && !IsWordChar(s[i])
    ensures !QualifierAt(s, i)
  {
  }

  /** The possessive group consumes at most one way. */
  lemma PossessiveUnique(s: string, i: nat, j: nat, j': nat)
    requires i <= j <= |s| && i <= j' <= |s|
    requires PossessiveQualifier(s, i, j) && PossessiveQualifier(s, i, j')
    ensures j == j'
  {
    if QualifierAt(s, i) {
      QualifierUnique(s, i, j);
    }
  }

  /** Whatever the possessive group consumes before a star, the text at i
      begins with a word character or with the star itself, never with `\s`. */
  lemma PossessiveQualifierStart(s: string, i: nat, j: nat)
    requires i <= j < |s| && PossessiveQualifier(s, i, j) && s[j] == '*'
    ensures !IsRegexSpace(s[i])
  {
    if QualifierAt(s, i) {
      assert IsWordChar(s[i]);
    }
  }

  /** The matcher for `(?i)^SELECT\s+(?:\w+\.)?+\*.*`: take the greedy `\s+`,
      then the possessive qualifier, then demand the star. */
  predicate MatchesSelectStar(s: string) {
    && StartsWithSelect(s)
    && var i := SpaceRunEnd(s, 6);
       var j := QualifierEnd(s, i);
       6 < i && j < |s| && s[j] == '*' && NoLineTerminatorFrom(s, j + 1)
  }

  /** The matcher accepts exactly the language of the pattern: no shorter
      `\s+` can lead to a match, since the qualifier and the star to follow it
      both begin with a character that is not `\s`. */
  lemma {:induction false} SelectStarMatcherCorrect(s: string)
    ensures MatchesSelectStar(s) <==> SelectStarPattern(s)
  {
    if StartsWithSelect(s) {
      var i := SpaceRunEnd(s, 6);
      var j := QualifierEnd(s, i);
      if MatchesSelectStar(s) {
        assert 6 < i <= j < |s| && SpacesBetween(s, 6, i) && PossessiveQualifier(s, i, j);
      }
      if SelectStarPattern(s) {
        var i': nat, j': nat :|
          && 6 < i' <= j' < |s|
          && SpacesBetween(s, 6, i')
          && PossessiveQualifier(s, i', j')
          && s[j'] == '*'
          && NoLineTerminatorFrom(s, j' + 1);
        PossessiveQualifierStart(s, i', j');
        assert i' == i;
        PossessiveUnique(s, i, j, j');
      }
    }
  }

  /** The source's isFieldQuery: both whole-string matches, run as the
      matcher runs them. */
  predicate IsFieldQuery(q: string) {
    MatchesSelectAny(q) && !MatchesSelectStar(q)
  }

  /** isFieldQuery holds exactly when the string is a case-insensitive SELECT
      followed by a rest without line terminators, and is not in the language
      of the star-select pattern. */
  lemma IsFieldQueryMeansPatterns(q: string)
    ensures IsFieldQuery(q) <==> MatchesSelectAny(q) && !SelectStarPattern(q)
  {
    SelectStarMatcherCorrect(q);
  }

  /** A string that begins with `(?i)SELECT\s+(\w+\.)?\*` (a prefix match, with
      an ordinary greedy optional group), whatever follows. */
  ghost predicate HasStarPrefix(s: string) {
    && StartsWithSelect(s)
    && exists i: nat, j: nat ::
         && 6 < i <= j < |s|
         && SpacesBetween(s, 6, i)
         && (j == i || QualifierBetween(s, i, j))
         && s[j] == '*'
  }

  /** Every star select, bare or qualified by one `alias.`, is a whole-entity
      query, whatever follows the star (a line terminator anywhere after
      SELECT already makes the first pattern fail). */
  lemma {:induction false} StarSelectIsNotFieldQuery(s: string)
    requires HasStarPrefix(s)
    ensures !IsFieldQuery(s)
  {
    IsFieldQueryMeansPatterns(s);
    if MatchesSelectAny(s) {
      var i: nat, j: nat :|
        && 6 < i <= j < |s|
        && SpacesBetween(s, 6, i)
        && (j == i || QualifierBetween(s, i, j))
        && s[j] == '*';
      if j == i {
        NoQualifierAt(s, i);
      }
      assert PossessiveQualifier(s, i, j) && NoLineTerminatorFrom(s, j + 1);
    }
  }

  /** On strings the first pattern accepts, isFieldQuery is exactly "no star
      prefix": the possessive group behaves here as a greedy one would. */
  lemma {:induction false} FieldQueryIffNoStarPrefix(s: string)
    requires MatchesSelectAny(s)
    ensures IsFieldQuery(s) <==> !HasStarPrefix(s)
  {
    IsFieldQueryMeansPatterns(s);
    if HasStarPrefix(s) {
      StarSelectIsNotFieldQuery(s);
    }
    if SelectStarPattern(s) {
      var i: nat, j: nat :|
        && 6 < i <= j < |s|
        && SpacesBetween(s, 6, i)
        && PossessiveQualifier(s, i, j)
        && s[j] == '*'
        && NoLineTerminatorFrom(s, j + 1);
      assert j == i || QualifierBetween(s, i, j);
    }
  }

  /** Anything that does not begin with SELECT, the empty string included, is
      not a fields query: the check is purely lexical and not a validation. */
  lemma NotSelectIsNotFieldQuery(s: string)
    requires !StartsWithSelect(s)
    ensures !IsFieldQuery(s)
  {
  }

  /** How the matcher runs over "SELECT a.b.* FROM Person": the space run
      ends at 7 and the qualifier `a.` at 9, where `b` stands, not the star. */
  lemma DoublyQualifiedScan(q: string)
    requires q == "SELECT a.b.* FROM Person"
    ensures SpaceRunEnd(q, 6) == 7 && QualifierEnd(q, 7) == 9 && q[9] != '*'
  {
    assert SpaceRunEnd(q, 7) == 7;
    assert WordRunEnd(q, 8) == 8;
  }

  /** How the matcher runs over "select p.* from Person p". */
  lemma QualifiedStarScan(q: string)
    requires q == "select p.* from Person p"
    ensures SpaceRunEnd(q, 6) == 7 && QualifierEnd(q, 7) == 9 && q[9] == '*'
  {
    assert SpaceRunEnd(q, 7) == 7;
    assert WordRunEnd(q, 8) == 8;
  }

  /** How the matcher runs over "select * from Person". */
  lemma StarScan(q: string)
    requires q == "select * from Person"
    ensures SpaceRunEnd(q, 6) == 7 && QualifierEnd(q, 7) == 7 && q[7] == '*'
  {
    assert SpaceRunEnd(q, 7) == 7;
    assert WordRunEnd(q, 7) == 7;
  }

  /** A bare star select is a whole-entity query. */
  lemma StarSelectExample()
    ensures !IsFieldQuery("select * from Person")
  {
    StarScan("select * from Person");
  }

  /** A star qualified by its alias is a whole-entity query too. */
  lemma QualifiedStarSelectExample()
    ensures !IsFieldQuery("select p.* from Person p")
  {
    QualifiedStarScan("select p.* from Person p");
  }

  /** A projection is a fields query. */
  lemma ProjectionExample()
    ensures IsFieldQuery("SELECT name, age FROM Person")
  {
    var q := "SELECT name, age FROM Person";
    assert forall k :: 0 <= k < |q| ==> q[k] != '*';
  }

  /** Without a space before it the star does not count: `\s+` needs one. */
  lemma UnspacedStarExample()
    ensures IsFieldQuery("SELECT*")
  {
    assert SpaceRunEnd("SELECT*", 6) == 6;
  }

  /** Only one `ident.` qualifier may precede the star. */
  lemma DoublyQualifiedStarExample()
    ensures IsFieldQuery("SELECT a.b.* FROM Person")
  {
    DoublyQualifiedScan("SELECT a.b.* FROM Person");
  }

  /** A line break after SELECT makes even a projection a whole-entity query,
      because `.` does not match line terminators. */
  lemma MultiLineProjectionIsNotFieldQuery()
    ensures !IsFieldQuery("SELECT name\nFROM Person")
  {
    assert IsLineTerminator("SELECT name\nFROM Person"[11]);
  }
}
