/**
 * The conversation state of the chat page (chess-frontend/src/pages/Chat.jsx):
 * the visible message log, the known users, the selected partner, the local
 * user id and the text of the message input. Socket.io and HTTP callbacks are
 * methods whose outcome (a delivered message, a POST that succeeded or failed,
 * a fetched history, the answer to `window.confirm`) is a parameter, and
 * whose effects on the outside (a socket emit, a navigation) are results.
 */
module ChatPage {

  import opened Wrappers

  /** A chat message as the relay and the message API exchange it. */
  datatype Message = Message(sender: string, receiver: string, text: string)

  /** An invitation as emitted on the `invitePlayer` socket event. */
  datatype Invite = Invite(fromUser: string, toUser: string)

  /**
   * An entry of the user list, as a JavaScript `Set` compares it: a
   * primitive (an id string) by its value, an object (a user record) by its
   * reference, which is abstracted as a number.
   */
  datatype User = Value(name: string) | Object(ref: nat)

  /** What the user is told when `sendMessage` or `invitePlayer` refuses to act. */
  datatype Notice = Quiet | Alert(text: string)

  // ---------------------------------------------------------------------------
  // The inbound-message filter

  /** The message goes from `a` to `b` or from `b` to `a`. */
  predicate Between(m: Message, a: string, b: string)
  {
    (m.sender == a && m.receiver == b) || (m.sender == b && m.receiver == a)
  }

  /**
   * The condition under which the `receiveMessage` handler shows a message:
   * it involves the local user and it involves the selected partner. With a
   * partner other than the local user, these are exactly the messages of
   * their conversation, in either direction. With the local user as partner,
   * every message the local user sends or receives passes; the page reaches
   * that state only with both ids "", since a user's own entry has no Chat
   * button (chess-frontend/src/pages/Chat.jsx:154-161).
   */
  predicate Accepts(userId: string, selectedUser: string, m: Message)
    ensures userId != selectedUser ==>
              (Accepts(userId, selectedUser, m) <==> Between(m, userId, selectedUser))
    ensures userId == selectedUser ==>
              (Accepts(userId, selectedUser, m) <==> m.sender == userId || m.receiver == userId)
  {
    (m.receiver == userId || m.sender == userId) &&
    (m.sender == selectedUser || m.receiver == selectedUser)
  }

  /** Every message of the log belongs to the conversation a <-> b. */
  predicate AllBetween(log: seq<Message>, a: string, b: string)
  {
    forall i :: 0 <= i < |log| ==> Between(log[i], a, b)
  }

  // ---------------------------------------------------------------------------
  // The user-list merge `[...new Set([...prev, ...userList])]`

  /** No entry occurs twice. */
  predicate NoDuplicates<T(==,!new)>(s: seq<T>)
  {
    forall i, j :: 0 <= i < j < |s| ==> s[i] != s[j]
  }

  /**
   * Adds the values of `xs`, in order, to the insertion-ordered set `acc`:
   * a value already present is skipped, a new one goes to the end.
   */
  function Insert<T(==,!new)>(acc: seq<T>, xs: seq<T>): (r: seq<T>)
    ensures |acc| <= |r| && r[..|acc|] == acc
    ensures forall x :: x in r <==> x in acc || x in xs
    decreases |xs|
  {
    if xs == [] then acc
    else Insert(if xs[0] in acc then acc else acc + [xs[0]], xs[1..])
  }

  /** `[...new Set(xs)]`: the distinct values of `xs` in first-occurrence order. */
  function SetOf<T(==,!new)>(xs: seq<T>): (r: seq<T>)
    ensures NoDuplicates(r)
    ensures forall x :: x in r <==> x in xs
  {
    InsertProperties([], xs);
    Insert([], xs)
  }

  /**
   * Building the set one more value at a time: the value goes to the end
   * exactly when it is not there yet, so the set lists the distinct values
   * in the order of their first occurrence.
   */
  lemma SetOfAppend<T(!new)>(xs: seq<T>, x: T)
    ensures SetOf(xs + [x]) == SetOf(xs) + (if x in SetOf(xs) then [] else [x])
  {
    InsertAppend([], xs, [x]);
    assert [x][1..] == [];
  }

  /** The user list after an `updateUsers` event announcing `announced`. */
  function MergeUsers<T(==,!new)>(prev: seq<T>, announced: seq<T>): (r: seq<T>)
    ensures NoDuplicates(r)
    ensures forall u :: u in r <==> u in prev || u in announced
  {
    SetOf(prev + announced)
  }

  /**
   * Insertion keeps what is already in the set, first and in order, adds
   * exactly the new values and never repeats a value.
   */
  lemma {:induction false} InsertProperties<T(!new)>(acc: seq<T>, xs: seq<T>)
    requires NoDuplicates(acc)
    ensures NoDuplicates(Insert(acc, xs))
    ensures |acc| <= |Insert(acc, xs)| && Insert(acc, xs)[..|acc|] == acc
    ensures forall x :: x in Insert(acc, xs) <==> x in acc || x in xs
    decreases |xs|
  {
    if xs != [] {
      var next := if xs[0] in acc then acc else acc + [xs[0]];
      assert next[..|acc|] == acc;
      InsertProperties(next, xs[1..]);
      assert xs == [xs[0]] + xs[1..];
      var r := Insert(next, xs[1..]);
      assert r[..|acc|] == r[..|next|][..|acc|];
    }
  }

  /** Inserting `a` then `b` is inserting `a + b`. */
  lemma {:induction false} InsertAppend<T(!new)>(acc: seq<T>, a: seq<T>, b: seq<T>)
    ensures Insert(acc, a + b) == Insert(Insert(acc, a), b)
    decreases |a|
  {
    if a != [] {
      assert a + b != [];
      assert (a + b)[0] == a[0];
      assert (a + b)[1..] == a[1..] + b;
      InsertAppend(if a[0] in acc then acc else acc + [a[0]], a[1..], b);
    } else {
      assert a + b == b;
    }
  }

  /** Inserting values that are all present already changes nothing. */
  lemma {:induction false} InsertKnown<T(!new)>(acc: seq<T>, xs: seq<T>)
    requires forall x :: x in xs ==> x in acc
    ensures Insert(acc, xs) == acc
    decreases |xs|
  {
    if xs != [] {
      assert xs[0] in xs;
      forall x | x in xs[1..] ensures x in acc {
        assert x in xs;
      }
      InsertKnown(acc, xs[1..]);
    }
  }

  /** Inserting values that are all new appends them. */
  lemma {:induction false} InsertFresh<T(!new)>(acc: seq<T>, xs: seq<T>)
    requires NoDuplicates(acc + xs)
    ensures Insert(acc, xs) == acc + xs
    decreases |xs|
  {
    if xs != [] {
      assert (acc + xs)[|acc|] == xs[0];
      assert xs[0] !in acc by {
        forall k | 0 <= k < |acc| ensures acc[k] != xs[0] {
          assert acc[k] == (acc + xs)[k];
        }
      }
      assert (acc + [xs[0]]) + xs[1..] == acc + xs;
      InsertFresh(acc + [xs[0]], xs[1..]);
    }
  }

  /** A list without duplicates is its own set. */
  lemma SetOfDistinct<T(!new)>(xs: seq<T>)
    requires NoDuplicates(xs)
    ensures SetOf(xs) == xs
  {
    assert [] + xs == xs;
    InsertFresh([], xs);
  }

  /**
   * An `updateUsers` merge never drops a known user, contains every announced
   * user, and repeats no entry; application of the same announcement again
   * changes nothing.
   */
  lemma MergeUsersProperties<T(!new)>(prev: seq<T>, announced: seq<T>)
    ensures NoDuplicates(MergeUsers(prev, announced))
    ensures forall u :: u in MergeUsers(prev, announced) <==> u in prev || u in announced
    ensures MergeUsers(MergeUsers(prev, announced), announced) == MergeUsers(prev, announced)
  {
    var r := MergeUsers(prev, announced);
    InsertProperties([], prev + announced);
    InsertProperties([], r + announced);
    SetOfDistinct(r);
    InsertAppend([], r, announced);
    InsertKnown(r, announced);
  }

  /**
   * The merge keeps the previous list first and in its order (with its own
   * repeats removed), and adds the announced users that were not known yet.
   */
  lemma MergeUsersKeepsPrefix<T(!new)>(prev: seq<T>, announced: seq<T>)
    ensures MergeUsers(prev, announced) == Insert(SetOf(prev), announced)
    ensures |SetOf(prev)| <= |MergeUsers(prev, announced)|
    ensures MergeUsers(prev, announced)[..|SetOf(prev)|] == SetOf(prev)
    ensures NoDuplicates(prev) ==> SetOf(prev) == prev
    ensures NoDuplicates(prev) ==> MergeUsers(prev, announced)[..|prev|] == prev
  {
    InsertAppend([], prev, announced);
    InsertProperties([], prev);
    InsertProperties(SetOf(prev), announced);
    if NoDuplicates(prev) {
      SetOfDistinct(prev);
    }
  }

  // ---------------------------------------------------------------------------
  // `message.trim()`

  /**
   * The characters `String.prototype.trim` removes: ECMAScript WhiteSpace
   * (tab, vertical tab, form feed, the byte-order mark and the Unicode space
   * separators) and LineTerminator (line feed, carriage return, line and
   * paragraph separator).
   */
  predicate IsJsSpace(c: char)
  {
    c == '\t' || c == '\n' || c == '\U{000B}' || c == '\U{000C}' || c == '\r' ||
    c == ' ' || c == '\U{00A0}' || c == '\U{1680}' ||
    ('\U{2000}' <= c <= '\U{200A}') ||
    c == '\U{2028}' || c == '\U{2029}' || c == '\U{202F}' || c == '\U{205F}' ||
    c == '\U{3000}' || c == '\U{FEFF}'
  }

  /** Every character of `s` is white space (vacuously so for ""). */
  predicate IsBlank(s: string)
  {
    forall i :: 0 <= i < |s| ==> IsJsSpace(s[i])
  }

  /** `s` without its leading white space. */
  function TrimStart(s: string): (r: string)
    ensures |r| <= |s| && r == s[|s| - |r|..]
    ensures IsBlank(s[..|s| - |r|])
    ensures r == [] || !IsJsSpace(r[0])
  {
    if s != [] && IsJsSpace(s[0]) then TrimStart(s[1..]) else s
  }

  /** `s` without its trailing white space. */
  function TrimEnd(s: string): (r: string)
    ensures |r| <= |s| && r == s[..|r|]
    ensures IsBlank(s[|r|..])
    ensures r == [] || !IsJsSpace(r[|r| - 1])
  {
    if s != [] && IsJsSpace(s[|s| - 1]) then TrimEnd(s[..|s| - 1]) else s
  }

  /** `s.trim()`. */
  function Trim(s: string): (r: string)
    ensures |r| <= |s|
    ensures r == [] <==> IsBlank(s)
    ensures r == [] || (!IsJsSpace(r[0]) && !IsJsSpace(r[|r| - 1]))
  {
    TrimEnd(TrimStart(s))
  }

  // ---------------------------------------------------------------------------
  // The component state

  class Chat {
    /** `messages`: the visible log, oldest first. */
    var messages: seq<Message>
    /** `users`: the known users. */
    var users: seq<User>
    /** `userId`: the local user, "" when nobody is logged in. */
    var userId: string
    /** `selectedUser`: the conversation partner, "" when none is selected. */
    var selectedUser: string
    /** `message`: the text of the message input. */
    var input: string

    /** The log holds only messages of the conversation with the partner. */
    predicate Focused()
      reads this
    {
      AllBetween(messages, userId, selectedUser)
    }

    /** The page as it mounts, with the id kept in local storage (or ""). */
    constructor (storedUserId: string)
      ensures messages == [] && users == [] && input == ""
      ensures userId == storedUserId && selectedUser == ""
    {
      messages := [];
      users := [];
      userId := storedUserId;
      selectedUser := "";
      input := "";
    }

    /** The `onChange` handler of the input field. */
    method Type(text: string)
      modifies this`input
      ensures input == text
    {
      input := text;
    }

    /** The "Chat" button of a user entry: the user becomes the partner. */
    method Select(id: string)
      modifies this`selectedUser
      ensures selectedUser == id
    {
      selectedUser := id;
    }

    /**
     * The resolution of `GET /api/users`, which the page's socket effect
     * issues on mount and again whenever the local user or the partner
     * changes: a success replaces the whole list, dropping the users that
     * only `updateUsers` had merged in; a failure leaves it.
     */
    method UsersFetched(response: Option<seq<User>>)
      modifies this`users
      ensures users == if response.Some? then response.value else old(users)
    {
      if response.Some? {
        users := response.value;
      }
    }

    /** The `updateUsers` socket handler. */
    method UpdateUsers(announced: seq<User>)
      modifies this`users
      ensures users == MergeUsers(old(users), announced)
      ensures NoDuplicates(users)
      ensures forall u :: u in users <==> u in old(users) || u in announced
      ensures NoDuplicates(old(users)) ==> |old(users)| <= |users| && users[..|old(users)|] == old(users)
    {
      MergeUsersProperties(users, announced);
      MergeUsersKeepsPrefix(users, announced);
      assert NoDuplicates(users) ==> SetOf(users) == users;
      users := MergeUsers(users, announced);
    }

    /**
     * The `receiveMessage` socket handler: the message is appended when it
     * involves both the local user and the partner, and dropped otherwise.
     */
    method ReceiveMessage(m: Message)
      modifies this`messages
      ensures Accepts(userId, selectedUser, m) ==> messages == old(messages) + [m]
      ensures !Accepts(userId, selectedUser, m) ==> messages == old(messages)
      ensures old(Focused()) && userId != selectedUser ==> Focused()
    {
      if Accepts(userId, selectedUser, m) {
        messages := messages + [m];
      }
    }

    /**
     * The history effect, together with the resolution of its
     * `GET /api/messages/{userId}/{selectedUser}`: with a partner and a
     * local user, a successful response replaces the whole log; otherwise no
     * request is made, or it failed, and the log stays.
     */
    method LoadHistory(response: Option<seq<Message>>) returns (requested: Option<(string, string)>)
      modifies this`messages
      ensures requested == if selectedUser != "" && userId != "" then Some((userId, selectedUser)) else None
      ensures messages == if requested.Some? && response.Some? then response.value else old(messages)
    {
      requested := None;
      if selectedUser != "" && userId != "" {
        requested := Some((userId, selectedUser));
        if response.Some? {
          messages := response.value;
        }
      }
    }

    /**
     * `sendMessage`: refused, with an alert, for a blank text or when no
     * partner is selected. Otherwise the message is POSTed; only when the
     * save succeeds is it emitted on the socket, appended and the input
     * cleared.
     */
    method SendMessage(saved: bool) returns (posted: Option<Message>, emitted: Option<Message>, notice: Notice)
      modifies this`messages, this`input
      ensures posted == if Trim(old(input)) == [] || selectedUser == "" then None
                        else Some(Message(userId, selectedUser, old(input)))
      ensures notice == if posted.None? then Alert("Please select a user and type a message.") else Quiet
      ensures emitted == if posted.Some? && saved then posted else None
      ensures emitted.Some? ==> messages == old(messages) + [emitted.value] && input == ""
      ensures emitted.None? ==> messages == old(messages) && input == old(input)
      ensures old(Focused()) ==> Focused()
    {
      if Trim(input) == [] || selectedUser == "" {
        return None, None, Alert("Please select a user and type a message.");
      }
      var newMessage := Message(userId, selectedUser, input);
      posted, notice := Some(newMessage), Quiet;
      emitted := None;
      if saved {
        emitted := Some(newMessage);
        messages := messages + [newMessage];
        input := "";
      }
    }

    /**
     * `invitePlayer`: with no partner it only alerts; otherwise it emits the
     * invitation from the local user to the partner.
     */
    method InvitePlayer() returns (emitted: Option<Invite>, notice: Notice)
      ensures selectedUser == "" <==> emitted.None?
      ensures emitted.Some? ==> emitted.value == Invite(userId, selectedUser)
      ensures notice == if emitted.None? then Alert("Please select a user to invite.")
                        else Alert("Game invite sent to " + selectedUser)
    {
      if selectedUser == "" {
        return None, Alert("Please select a user to invite.");
      }
      emitted := Some(Invite(userId, selectedUser));
      notice := Alert("Game invite sent to " + selectedUser);
    }

    /**
     * The `invitePlayer` socket handler: the user is asked; an acceptance
     * navigates to "/", a refusal does nothing. The chat state is untouched
     * either way, and the addressee of the invitation is not checked.
     */
    method InviteReceived(invite: Invite, accepted: bool) returns (prompt: string, navigateTo: Option<string>)
      ensures prompt == invite.fromUser + " invited you to play! Accept?"
      ensures accepted <==> navigateTo.Some?
      ensures navigateTo.Some? ==> navigateTo.value == "/"
    {
      prompt := invite.fromUser + " invited you to play! Accept?";
      navigateTo := if accepted then Some("/") else None;
    }
  }
}
