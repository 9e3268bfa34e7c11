/** The `users` app's models: accounts with a pattern-constrained unique
    username and a unique e-mail that serves as the login, and the directed
    follow relation `Subscription`. */
module UserModels {
  import opened Collections

  type UserId = nat

  datatype User = User(username: string, email: string, firstName: string, lastName: string)

  /** Python's `\w` on ASCII: letters, digits and underscore. */
  predicate IsWordChar(c: char)
  {
    ('a' <= c <= 'z') || ('A' <= c <= 'Z') || ('0' <= c <= '9') || c == '_'
  }

  /** One character of the class `[\w.@+-]`. */
  predicate IsUsernameChar(c: char)
  {
    IsWordChar(c) || c == '.' || c == '@' || c == '+' || c == '-'
  }

  /** A username the pattern is meant to admit: one or more characters of `[\w.@+-]`.
      The model's account store admits only these. */
  predicate ValidUsername(s: string)
  {
    |s| > 0 && forall i | 0 <= i < |s| :: IsUsernameChar(s[i])
  }

  /** What `re.search(r'^[\w.@+-]+$', s)` accepts: Python's `$` also matches
      just before a final newline, so one trailing "\n" slips through. */
  predicate PatternMatchesAsWritten(s: string)
  {
    ValidUsername(s) || (|s| > 1 && s[|s| - 1] == '\n' && ValidUsername(s[..|s| - 1]))
  }

  /** The pattern as written accepts a username ending in a newline. */
  lemma TrailingNewlineAccepted()
    ensures PatternMatchesAsWritten("bob\n")
    ensures !ValidUsername("bob\n")
  {
    assert "bob\n"[..3] == "bob";
    assert !IsUsernameChar("bob\n"[3]);
  }

  /** The corrected predicate admits no control character such as a newline,
      and it admits nothing the pattern as written rejects. */
  lemma ValidUsernameIsStrict(s: string)
    requires ValidUsername(s)
    ensures '\n' !in s
    ensures PatternMatchesAsWritten(s)
  {
  }

  /** `unique=True` on `username`. */
  predicate UsernamesUnique(users: map<UserId, User>)
  {
    forall a, b | a in users && b in users && users[a].username == users[b].username :: a == b
  }

  /** `unique=True` on `email`. */
  predicate EmailsUnique(users: map<UserId, User>)
  {
    forall a, b | a in users && b in users && users[a].email == users[b].email :: a == b
  }

  /** The accounts whose login (`USERNAME_FIELD = 'email'`) is `email`. */
  function AccountsForLogin(users: map<UserId, User>, email: string): set<UserId>
  {
    set id | id in users && users[id].email == email
  }

  /** Because e-mails are unique, a login names at most one account. */
  lemma LoginIdentifiesOneAccount(users: map<UserId, User>, email: string)
    requires EmailsUnique(users)
    ensures |AccountsForLogin(users, email)| <= 1
    ensures forall id | id in users :: AccountsForLogin(users, users[id].email) == {id}
  {
    var found := AccountsForLogin(users, email);
    if found != {} {
      var a :| a in found;
      assert found == {a};
    }
  }

  /** Every account satisfies the field constraints: a valid username and a
      non-empty e-mail (`blank=False`), and both are unique. */
  predicate UsersValid(users: map<UserId, User>)
  {
    && (forall id | id in users :: ValidUsername(users[id].username) && users[id].email != [])
    && UsernamesUnique(users)
    && EmailsUnique(users)
  }

  /** The `Subscription` table: at most one row per (user, author)
      (`unique_follow`), never user == author (`check_follower_author`), and
      both ends are existing accounts (the foreign keys). */
  predicate SubscriptionsValid(subscriptions: seq<(UserId, UserId)>, users: set<UserId>)
  {
    && Distinct(subscriptions)
    && forall i | 0 <= i < |subscriptions| ::
         subscriptions[i].0 != subscriptions[i].1
         && subscriptions[i].0 in users && subscriptions[i].1 in users
  }

  /** The subscriptions that survive deleting the user `gone` (on either side). */
  function FollowKept(gone: UserId): ((UserId, UserId)) -> bool
  {
    (p: (UserId, UserId)) => p.0 != gone && p.1 != gone
  }

  /** A deletion keeps the subscription constraints for the rows that remain. */
  lemma SubscriptionsValidAfterFilter(subscriptions: seq<(UserId, UserId)>, keep: ((UserId, UserId)) -> bool,
                                      users: set<UserId>)
    requires Distinct(subscriptions)
    requires forall k | 0 <= k < |subscriptions| && keep(subscriptions[k]) ::
      subscriptions[k].0 != subscriptions[k].1 && subscriptions[k].0 in users && subscriptions[k].1 in users
    ensures SubscriptionsValid(Filter(subscriptions, keep), users)
  {
    FilterSubset(subscriptions, keep);
    var r := Filter(subscriptions, keep);
    forall k | 0 <= k < |r| ensures r[k].0 != r[k].1 && r[k].0 in users && r[k].1 in users {
      var j :| 0 <= j < |subscriptions| && subscriptions[j] == r[k];
    }
  }
}
