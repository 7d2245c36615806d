/**
 * The User record: its fields and defaults, the rating sub-record with its 1..5 bound,
 * the validators that a save runs, and the rating mean kept in `avgRating`.
 */
module UserModel {
  import opened Js

  /** A record id (the string form of an ObjectId). */
  type Id = string

  /** `role`: 'user' or 'admin'. */
  datatype Role = Member | Admin

  function RoleName(r: Role): string {
    match r
    case Member => "user"
    case Admin => "admin"
  }

  /** One entry of `ratings`: who rated, the value, and the (trimmed) feedback. */
  datatype Rating = Rating(rater: Id, value: int, feedback: string)

  /** The bound that the rating sub-schema puts on `value`. */
  predicate ValidRating(r: Rating) {
    1 <= r.value <= 5
  }

  /**
   * `passwordHash` is what the save hook stores in place of the password; `isBanned` is read and
   * written by the handlers although the schema does not declare it (see README).
   */
  datatype User = User(
    name: string,
    email: string,
    passwordHash: string,
    location: string,
    profilePhoto: string,
    skillsOffered: seq<string>,
    skillsWanted: seq<string>,
    availability: string,
    isPublic: bool,
    isBanned: bool,
    role: Role,
    ratings: seq<Rating>,
    avgRating: real)

  const DefaultPhoto := "https://placehold.co/100x100/8b5cf6/ffffff?text=U"
  const DefaultAvailability := "Weekends"
  const MinPasswordLength := 6

  /** A record built from the given fields, every other field at its schema default. */
  function NewUser(name: string, email: string, passwordHash: string, profilePhoto: string, role: Role): User {
    User(name, email, passwordHash, "", profilePhoto, [], [], DefaultAvailability,
         true, false, role, [], 0.0)
  }

  // ------------------------------------------------------ the email pattern

  /** `\w`: an ASCII letter, digit or underscore. */
  predicate IsWordChar(c: char) {
    ('a' <= c <= 'z') || ('A' <= c <= 'Z') || ('0' <= c <= '9') || c == '_'
  }

  predicate IsSeparator(c: char) {
    c == '.' || c == '-'
  }

  /**
   * `\w+([.-]?\w+)*`: word characters and separators, starting and ending with a word
   * character, with no two separators next to each other.
   */
  predicate WordRun(s: string) {
    && |s| > 0
    && IsWordChar(s[0])
    && IsWordChar(s[|s| - 1])
    && (forall i :: 0 <= i < |s| ==> IsWordChar(s[i]) || IsSeparator(s[i]))
    && (forall i :: 0 <= i < |s| - 1 ==> IsWordChar(s[i]) || IsWordChar(s[i + 1]))
  }

  /** `(\.\w{2,3})+`: one or more labels, each a dot followed by two or three word characters. */
  predicate TopLevelLabels(t: string)
    decreases |t|
  {
    && |t| >= 3
    && t[0] == '.'
    && IsWordChar(t[1])
    && IsWordChar(t[2])
    && ((|t| == 3 || TopLevelLabels(t[3..])) ||
        (|t| >= 4 && IsWordChar(t[3]) && (|t| == 4 || TopLevelLabels(t[4..]))))
  }

  /** The domain `d` splits at position `j` into `\w+([.-]?\w+)*` and `(\.\w{2,3})+`. */
  predicate DomainSplitsAt(d: string, j: int)
    requires 0 <= j <= |d|
  {
    WordRun(d[..j]) && TopLevelLabels(d[j..])
  }

  /** `\w+([.-]?\w+)*(\.\w{2,3})+`: the domain splits somewhere into the two parts. */
  predicate DomainMatches(d: string) {
    DomainMatchesFrom(d, 0)
  }

  /** Some split position at or after `j` works (the search the regex engine's backtracking performs). */
  predicate DomainMatchesFrom(d: string, j: nat)
    decreases |d| - j
  {
    j <= |d| && (DomainSplitsAt(d, j) || DomainMatchesFrom(d, j + 1))
  }

  /** The address `e` splits at position `i` into a local part, `@` and a domain. */
  predicate EmailSplitsAt(e: string, i: int)
    requires 0 <= i < |e|
  {
    e[i] == '@' && WordRun(e[..i]) && DomainMatches(e[i + 1..])
  }

  /** The `match` validator of `email`: `^\w+([.-]?\w+)*@\w+([.-]?\w+)*(\.\w{2,3})+$`. */
  predicate EmailMatches(e: string) {
    EmailMatchesFrom(e, 0)
  }

  predicate EmailMatchesFrom(e: string, i: nat)
    decreases |e| - i
  {
    i < |e| && (EmailSplitsAt(e, i) || EmailMatchesFrom(e, i + 1))
  }

  /** A matching address holds exactly one `@`, with a non-empty local part before it. */
  lemma EmailHasOneAt(e: string, i: int, k: int)
    requires 0 <= i < |e| && EmailSplitsAt(e, i)
    requires 0 <= k < |e| && e[k] == '@'
    ensures k == i && i > 0
  {
    if k > i {
      var d := e[i + 1..];
      var j := DomainSplit(d, 0);
      if k - i - 1 >= j {
        assert e[k] == d[j..][k - i - 1 - j];
        TopLevelLabelsHaveNoAt(d[j..], k - i - 1 - j);
      }
    }
  }

  /** The position at which a matching domain splits. */
  lemma {:induction false} DomainSplit(d: string, from: nat) returns (j: nat)
    requires DomainMatchesFrom(d, from)
    ensures from <= j <= |d| && DomainSplitsAt(d, j)
    decreases |d| - from
  {
    if DomainSplitsAt(d, from) {
      j := from;
    } else {
      j := DomainSplit(d, from + 1);
    }
  }

  lemma {:induction false} TopLevelLabelsHaveNoAt(t: string, k: int)
    requires TopLevelLabels(t) && 0 <= k < |t|
    ensures t[k] != '@'
    decreases |t|
  {
    if k >= 3 {
      if |t| > 3 && TopLevelLabels(t[3..]) {
        TopLevelLabelsHaveNoAt(t[3..], k - 3);
      } else if k >= 4 {
        TopLevelLabelsHaveNoAt(t[4..], k - 4);
      }
    }
  }

  /** A short address of the usual shape matches. */
  lemma EmailExample()
    ensures EmailMatches("a@b.co")
  {
    var e := "a@b.co";
    var d := e[2..];
    assert d[1..] == ".co" && TopLevelLabels(d[1..]);
    assert d[..1] == "b" && WordRun(d[..1]);
    assert DomainSplitsAt(d, 1);
    assert DomainMatchesFrom(d, 1);
    assert e[..1] == "a" && WordRun(e[..1]);
    assert EmailSplitsAt(e, 1);
    assert EmailMatchesFrom(e, 1);
  }

  /** The validators a new record must pass: `name` required, `email` matching, `password` of length 6 or more. */
  predicate CreatableUser(name: string, email: string, password: string) {
    name != "" && EmailMatches(email) && |password| >= MinPasswordLength
  }

  // ------------------------------------------------------------ the ratings

  /** The sum of the rating values. */
  function Sum(rs: seq<Rating>): int {
    if rs == [] then 0 else rs[0].value + Sum(rs[1..])
  }

  /** `rs.reduce((acc, item) => item.value + acc, acc)`. */
  function FoldValues(rs: seq<Rating>, acc: int): int {
    if rs == [] then acc else FoldValues(rs[1..], rs[0].value + acc)
  }

  /** The arithmetic mean of the values, 0 for no ratings (the `avgRating` default). */
  function Mean(rs: seq<Rating>): real {
    if |rs| == 0 then 0.0 else Sum(rs) as real / |rs| as real
  }

  /** The `reduce` in the rating handler computes the sum. */
  lemma {:induction false} FoldIsSum(rs: seq<Rating>, acc: int)
    ensures FoldValues(rs, acc) == acc + Sum(rs)
  {
    if rs != [] {
      FoldIsSum(rs[1..], rs[0].value + acc);
    }
  }

  lemma {:induction false} SumAppend(rs: seq<Rating>, r: Rating)
    ensures Sum(rs + [r]) == Sum(rs) + r.value
  {
    if rs != [] {
      assert (rs + [r])[1..] == rs[1..] + [r];
      SumAppend(rs[1..], r);
    }
  }

  /** Appending a rating moves the mean to the weighted combination of the old mean and the new value. */
  lemma MeanAppend(rs: seq<Rating>, r: Rating)
    ensures Mean(rs + [r]) == (Mean(rs) * |rs| as real + r.value as real) / (|rs| + 1) as real
  {
    SumAppend(rs, r);
    if |rs| > 0 {
      assert Mean(rs) * |rs| as real == Sum(rs) as real;
    }
  }

  lemma {:induction false} SumBounds(rs: seq<Rating>)
    requires forall k :: 0 <= k < |rs| ==> ValidRating(rs[k])
    ensures |rs| <= Sum(rs) <= 5 * |rs|
  {
    if rs != [] {
      SumBounds(rs[1..]);
    }
  }

  /** With every value in 1..5, a non-empty mean is in 1..5 too. */
  lemma MeanInRange(rs: seq<Rating>)
    requires |rs| > 0
    requires forall k :: 0 <= k < |rs| ==> ValidRating(rs[k])
    ensures 1.0 <= Mean(rs) <= 5.0
  {
    SumBounds(rs);
    QuotientBounds(Sum(rs) as real, |rs| as real);
  }

  lemma QuotientBounds(total: real, n: real)
    requires n > 0.0 && n <= total <= 5.0 * n
    ensures 1.0 <= total / n <= 5.0
  {
    var q := total / n;
    assert q * n == total;
    assert (q - 1.0) * n == total - n;
    ProductSign(q - 1.0, n);
    assert (5.0 - q) * n == 5.0 * n - total;
    ProductSign(5.0 - q, n);
  }

  lemma ProductSign(a: real, n: real)
    requires n > 0.0 && a * n >= 0.0
    ensures a >= 0.0
  {
  }

  /** What every stored record satisfies: it passed the validators, and `avgRating` is the mean of `ratings`. */
  predicate RecordValid(u: User) {
    && u.name != ""
    && EmailMatches(u.email)
    && (forall k :: 0 <= k < |u.ratings| ==> ValidRating(u.ratings[k]))
    && u.avgRating == Mean(u.ratings)
  }

  /**
   * A new record has no ratings and `avgRating` 0, which is their mean, so it is valid as soon
   * as its name and email are; every field not given takes its schema default.
   */
  lemma NewUserValid(name: string, email: string, passwordHash: string, photo: string, role: Role)
    requires name != "" && EmailMatches(email)
    ensures var u := NewUser(name, email, passwordHash, photo, role);
            && RecordValid(u)
            && u.ratings == [] && u.avgRating == 0.0 && u.role == role
            && u.location == "" && u.availability == DefaultAvailability && u.isPublic && !u.isBanned
            && u.skillsOffered == [] && u.skillsWanted == []
  {
  }
}
