/**
 * Example sessions of the handlers, verified through their contracts alone.
 * bcrypt is stood in for by a hash that prefixes the salt, which is enough
 * to tell stored hashes apart.
 */
module Scenarios {
  import opened Wrappers
  import Jwt
  import opened Accounts
  import opened ChatHub

  function SaltedHash(password: string, salt: string): string
  {
    salt + password
  }

  /** Register "a@x.com" with "pass1" twice: created, then refused as a duplicate. */
  method RegisterTwice() returns (first: RegisterOutcome, second: RegisterOutcome, stored: map<Id, User>)
    ensures first.Registered? && second == AlreadyRegistered
    ensures stored == map[first.id := User("A", "a@x.com", SaltedHash("pass1", "salt1"))]
  {
    var table := new UserTable();
    first := table.Register("A", "a@x.com", "pass1", "pass1", SaltedHash, "salt1");
    assert table.HasEmail("a@x.com") by {
      assert table.users[first.id].email == "a@x.com";
    }
    second := table.Register("B", "a@x.com", "other", "other", SaltedHash, "salt2");
    stored := table.users;
  }

  /** Mismatched and short passwords are both reported, the mismatch first. */
  method RegisterBadPasswords() returns (r: RegisterOutcome, stored: map<Id, User>)
    ensures r == RegisterRejected([PasswordsDoNotMatch, PasswordTooShort])
    ensures stored == map[]
  {
    var table := new UserTable();
    r := table.Register("A", "a@x.com", "abc", "abd", SaltedHash, "salt1");
    stored := table.users;
  }

  /**
   * As written, POST reset-password with a token that does not verify under
   * the user's key (here one signed with the bare secret) still replaces
   * the user's password.
   */
  method ForgedTokenResetsPassword() returns (forged: Jwt.Token, verdict: Jwt.Verification, r: ResetOutcome, after: User)
    ensures verdict == Jwt.Rejected(Jwt.InvalidSignature)
    ensures r == PasswordChanged
    ensures after.password == SaltedHash("attacker", "salt2")
  {
    var table := new UserTable();
    var reg := table.Register("A", "a@x.com", "pass1", "pass1", SaltedHash, "salt1");
    var id := reg.id;
    forged := Jwt.Sign(Jwt.Payload("a@x.com", id), JWT_SECRET, 0, RESET_TOKEN_LIFETIME);
    verdict := Jwt.Verify(forged, ResetKey(table.users[id].password), 1);
    assert ResetKey(table.users[id].password) != JWT_SECRET by {
      ResetKeyInjective(table.users[id].password, "");
    }
    r := table.SubmitReset(id, forged, "attacker", "attacker", SaltedHash, "salt2");
    after := table.users[id];
  }

  /**
   * With the token check in place, the same forged token is refused and the
   * password is kept.
   */
  method ForgedTokenRefused() returns (r: ResetOutcome, after: User)
    ensures r == BadToken(Jwt.InvalidSignature)
    ensures after.password == SaltedHash("pass1", "salt1")
  {
    var table := new UserTable();
    var reg := table.Register("A", "a@x.com", "pass1", "pass1", SaltedHash, "salt1");
    var id := reg.id;
    var forged := Jwt.Sign(Jwt.Payload("a@x.com", id), JWT_SECRET, 0, RESET_TOKEN_LIFETIME);
    assert ResetKey(table.users[id].password) != JWT_SECRET by {
      ResetKeyInjective(table.users[id].password, "");
    }
    r := table.SubmitResetChecked(id, forged, "attacker", "attacker", SaltedHash, "salt2", 1);
    after := table.users[id];
  }

  /**
   * The full reset flow: request a link, open the form, reset the password;
   * afterwards the same link no longer opens the form.
   */
  method ResetLinkWorksOnce() returns (before: ViewOutcome, r: ResetOutcome, again: ViewOutcome)
    ensures before == ResetForm("a@x.com")
    ensures r == PasswordChanged
    ensures again == Unanswered(Jwt.InvalidSignature)
  {
    var table := new UserTable();
    var reg := table.Register("A", "a@x.com", "pass1", "pass1", SaltedHash, "salt1");
    assert table.HasEmail("a@x.com") by {
      assert table.users[reg.id].email == "a@x.com";
    }
    var link := table.ShowForgot("a@x.com", 100);
    var id := link.value.id;
    before := table.ViewReset(id, link.value.token, 200);
    assert SaltedHash("newpass", "salt2") != table.users[id].password by {
      assert table.users[id].password == SaltedHash("pass1", "salt1");
      assert SaltedHash("newpass", "salt2")[4] == '2';
    }
    r := table.SubmitResetChecked(id, link.value.token, "newpass", "newpass", SaltedHash, "salt2", 300);
    again := table.ViewReset(id, link.value.token, 400);
  }

  /** A link opened after its 15 minutes is refused as expired. */
  method ExpiredLinkRefused() returns (r: ViewOutcome)
    ensures r == Unanswered(Jwt.TokenExpired)
  {
    var table := new UserTable();
    var reg := table.Register("A", "a@x.com", "pass1", "pass1", SaltedHash, "salt1");
    assert table.HasEmail("a@x.com") by {
      assert table.users[reg.id].email == "a@x.com";
    }
    var link := table.ShowForgot("a@x.com", 100);
    r := table.ViewReset(link.value.id, link.value.token, 100 + RESET_TOKEN_LIFETIME);
  }

  /** An unknown email yields no link. */
  method ForgotUnknownEmail() returns (link: Option<ResetLink>)
    ensures link == None
  {
    var table := new UserTable();
    var reg := table.Register("A", "a@x.com", "pass1", "pass1", SaltedHash, "salt1");
    link := table.ShowForgot("b@x.com", 100);
  }

  /**
   * The profile update does not check email uniqueness: moving one user
   * onto another's email leaves two rows with the same email.
   */
  method UpdateCanDuplicateEmail() returns (a: User, b: User)
    ensures a.email == b.email == "b@x.com"
    ensures a.name == "A2" && b.name == "B"
  {
    var table := new UserTable();
    var ra := table.Register("A", "a@x.com", "pass1", "pass1", SaltedHash, "salt1");
    assert table.users[ra.id].email == "a@x.com";
    var rb := table.Register("B", "b@x.com", "pass2", "pass2", SaltedHash, "salt2");
    var flash := new Flash();
    flash.Push(ra.id);
    var ids := flash.Take();
    table.Update(ids, "A2", "b@x.com");
    a, b := table.users[ra.id], table.users[rb.id];
  }

  /**
   * A peer that has not renamed itself says "hi": every peer, the sender
   * included, receives it signed "Anonymous".
   */
  method AnonymousHello() returns (mine: seq<ServerEvent>, theirs: seq<ServerEvent>)
    ensures mine == theirs == [NewMessage("hi", "Anonymous")]
  {
    var hub := new Hub([]);
    var s1 := hub.Connect();
    var s2 := hub.Connect();
    hub.NewMessageFrom(s1, "hi");
    mine, theirs := hub.sockets[s1].outbox, hub.sockets[s2].outbox;
  }

  /** A rename takes effect for the next message, and only for the sender. */
  method RenameThenSpeak() returns (mine: Connection, theirs: Connection)
    ensures mine == Connection("ann", [NewMessage("hi", "ann")])
    ensures theirs == Connection("Anonymous", [NewMessage("hi", "ann")])
  {
    var hub := new Hub([]);
    var s1 := hub.Connect();
    var s2 := hub.Connect();
    hub.ChangeUsername(s1, "ann");
    hub.NewMessageFrom(s1, "hi");
    mine, theirs := hub.sockets[s1], hub.sockets[s2];
  }

  /** Messages are not stored: a peer that connects afterwards gets nothing. */
  method LateJoinerMissesMessage() returns (late: seq<ServerEvent>)
    ensures late == []
  {
    var hub := new Hub([]);
    var s1 := hub.Connect();
    hub.NewMessageFrom(s1, "hi");
    var s2 := hub.Connect();
    late := hub.sockets[s2].outbox;
  }

  /**
   * `new_grp("Team A")` then `get_grp` from another peer: both peers get a
   * groups event listing "Team A".
   */
  method CreateThenListGroups() returns (one: seq<ServerEvent>, two: seq<ServerEvent>)
    ensures one == two == [Groups([Group("Team A", "111")])]
  {
    var hub := new Hub([]);
    var s1 := hub.Connect();
    var s2 := hub.Connect();
    hub.NewGroup(s1, "Team A");
    assert hub.groups == [Group("Team A", "111")];
    hub.GetGroups(s2);
    one, two := hub.sockets[s1].outbox, hub.sockets[s2].outbox;
  }
}
