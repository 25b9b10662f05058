/** The profile page: the signed-in user's avatar initials, name and email. */
module Profile {
  import opened Wrappers
  import Text
  import Seqs

  /** The parts of the signed-in user the page reads. */
  datatype AuthUser = AuthUser(email: Option<string>, fullName: Option<string>)

  /** The avatar text: shown, absent (no name initials and no email), or
      the page failing (an empty email has no first character to upper-case). */
  datatype Initials = ShownInitials(text: string) | NoInitials | InitialsError

  /** The first character of each non-empty word, in order. (`n[0]` of an
      empty word is `undefined`, which `join('')` renders as nothing.) */
  function FirstChars(words: seq<string>): string
  {
    if words == [] then ""
    else (if words[0] != "" then [words[0][0]] else "") + FirstChars(words[1..])
  }

  predicate NonEmpty(w: string) { w != "" }

  /** The words of a name: the non-empty pieces between spaces. */
  function Words(fullName: string): seq<string>
  {
    Seqs.Filter(Text.Split(fullName, ' '), NonEmpty)
  }

  /** The first characters are those of the non-empty words, one each, in order. */
  lemma {:induction false} FirstCharsOfWords(words: seq<string>)
    ensures var ws := Seqs.Filter(words, NonEmpty);
            |FirstChars(words)| == |ws| &&
            forall i :: 0 <= i < |ws| ==> FirstChars(words)[i] == ws[i][0]
    decreases |words|
  {
    if words != [] {
      FirstCharsOfWords(words[1..]);
    }
  }

  /** Up to two upper-cased initials of the space-separated words of a name:
      the first character of each of the first two words. */
  function NameInitials(fullName: string): (r: string)
    ensures var ws := Words(fullName);
            |r| == (if |ws| < 2 then |ws| else 2) &&
            forall i :: 0 <= i < |r| ==> r[i] == Text.UpperChar(ws[i][0])
  {
    FirstCharsOfWords(Text.Split(fullName, ' '));
    Text.Take(Text.Upper(FirstChars(Text.Split(fullName, ' '))), 2)
  }

  /** The avatar text for a user: name initials when there are any, else the
      upper-cased first character of the email. */
  function UserInitials(user: AuthUser): Initials
  {
    var fromName := if user.fullName.Some? then NameInitials(user.fullName.value) else "";
    if fromName != "" then ShownInitials(fromName)
    else if user.email.None? then NoInitials
    else if user.email.value == "" then InitialsError
    else ShownInitials([Text.UpperChar(user.email.value[0])])
  }

  /** No initials come from a list of words exactly when every word is empty. */
  lemma {:induction false} FirstCharsEmpty(words: seq<string>)
    ensures FirstChars(words) == "" <==> forall i :: 0 <= i < |words| ==> words[i] == ""
    decreases |words|
  {
    if words != [] {
      FirstCharsEmpty(words[1..]);
      assert forall i :: 1 <= i < |words| ==> words[i] == words[1..][i - 1];
    }
  }

  /** Joining empty words with spaces gives only spaces. */
  lemma {:induction false} JoinOfEmpties(words: seq<string>)
    requires forall i :: 0 <= i < |words| ==> words[i] == ""
    ensures forall k :: 0 <= k < |Text.Join(words, " ")| ==> Text.Join(words, " ")[k] == ' '
    decreases |words|
  {
    if |words| >= 2 {
      JoinOfEmpties(words[1..]);
    }
  }

  /** Every character of a word occurs in the joined text. */
  lemma {:induction false} JoinKeepsChars(words: seq<string>, sep: string, i: nat, k: nat)
    requires i < |words| && k < |words[i]|
    ensures words[i][k] in Text.Join(words, sep)
    decreases i
  {
    Text.JoinCons(words, sep);
    if i == 0 {
      assert Text.Join(words, sep)[k] == words[0][k];
    } else {
      JoinKeepsChars(words[1..], sep, i - 1, k);
      var rest := Text.Join(words[1..], sep);
      var j :| 0 <= j < |rest| && rest[j] == words[i][k];
      assert Text.Join(words, sep)[|words[0]| + |sep| + j] == words[i][k];
    }
  }

  /** A name yields no initials exactly when it holds nothing but spaces. */
  lemma NameInitialsEmpty(fullName: string)
    ensures NameInitials(fullName) == "" <==> forall k :: 0 <= k < |fullName| ==> fullName[k] == ' '
  {
    var words := Text.Split(fullName, ' ');
    FirstCharsEmpty(words);
    var initials := FirstChars(words);
    assert NameInitials(fullName) == "" <==> initials == "";
    if initials == "" {
      JoinOfEmpties(words);
    } else {
      var i :| 0 <= i < |words| && words[i] != "";
      JoinKeepsChars(words, " ", i, 0);
      assert words[i][0] != ' ';
    }
  }

  /** What the page renders. */
  datatype ProfileView =
    | Skeleton
    | NothingRendered
    | ProfileCard(initials: Initials, title: string, email: Option<string>, nameDetail: string)

  const DefaultTitle := "Usuário"
  const NoName := "Não informado"

  function ProfilePage(authLoading: bool, user: Option<AuthUser>): ProfileView
  {
    if authLoading then Skeleton
    else if user.None? then NothingRendered
    else
      var u := user.value;
      var named := u.fullName.Some? && u.fullName.value != "";
      ProfileCard(UserInitials(u), if named then u.fullName.value else DefaultTitle, u.email,
                  if named then u.fullName.value else NoName)
  }

  /** The card shows the name when there is one and the fallbacks otherwise;
      the avatar falls back to the email exactly when the name is missing or
      all spaces. */
  lemma ProfilePageSpec(user: AuthUser)
    ensures var view := ProfilePage(false, Some(user));
            var named := user.fullName.Some? && user.fullName.value != "";
            view.ProfileCard? &&
            (named ==> view.title == user.fullName.value && view.nameDetail == user.fullName.value) &&
            (!named ==> view.title == DefaultTitle && view.nameDetail == NoName)
    ensures (user.fullName.Some? && exists k :: 0 <= k < |user.fullName.value| && user.fullName.value[k] != ' ') ==>
              UserInitials(user) == ShownInitials(NameInitials(user.fullName.value))
    ensures (user.fullName.None? || forall k :: 0 <= k < |user.fullName.value| ==> user.fullName.value[k] == ' ') ==>
              UserInitials(user) == (if user.email.None? then NoInitials
                                     else if user.email.value == "" then InitialsError
                                     else ShownInitials([Text.UpperChar(user.email.value[0])]))
  {
    if user.fullName.Some? {
      NameInitialsEmpty(user.fullName.value);
    }
  }
}
