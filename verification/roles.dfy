/** The roles of a user as strings of the API, and as the record of the administration pages. */
module Roles {
  import opened JsRuntime
  import opened JsText

  const ADMINISTRATOR := "system.administrator"

  /** A repository role; the second part is missing in a role of only two parts. */
  datatype Access = Access(repository: string, role: Option<string>)

  predicate IsRepositoryRole(role: string) {
    |role| >= 5 && role[..5] == "repo."
  }

  /** The parts of a role that begins with `repo.` */
  function Parsed(role: string): Access
    requires IsRepositoryRole(role)
  {
    RepositoryParts(role);
    var parts := Split(role, '.');
    Access(parts[1], if |parts| > 2 then Some(parts[2]) else None)
  }

  lemma RepositoryParts(role: string)
    requires IsRepositoryRole(role)
    ensures Split(role, '.') == ["repo"] + Split(role[5..], '.')
  {
    assert role == "repo" + "." + role[5..];
    SplitFirst("repo", '.', role[5..]);
  }

  /** A missing part is printed as what JavaScript calls it. */
  function Printed(a: Access): string {
    "repo." + a.repository + "." + (if a.role.Some? then a.role.value else "undefined")
  }

  /** The repository is what stands up to the next dot, the role what stands up to the one after it; more is ignored. */
  lemma ParsedIs(repository: string, role: string, rest: string)
    requires '.' !in repository && '.' !in role
    ensures Parsed("repo." + repository) == Access(repository, None)
    ensures Parsed("repo." + repository + "." + role) == Access(repository, Some(role))
    ensures Parsed("repo." + repository + "." + role + "." + rest) == Access(repository, Some(role))
  {
    hide Split;
    StandsFor("repo." + repository, repository);
    SplitNone(repository, '.');
    StandsFor("repo." + repository + "." + role, repository + "." + role);
    SplitFirst(repository, '.', role);
    SplitNone(role, '.');
    StandsFor("repo." + repository + "." + role + "." + rest, repository + "." + (role + "." + rest));
    SplitFirst(repository, '.', role + "." + rest);
    SplitFirst(role, '.', rest);
  }

  lemma StandsFor(role: string, names: string)
    requires role == "repo." + names
    ensures IsRepositoryRole(role) && Split(role, '.') == ["repo"] + Split(names, '.')
  {
    assert role[..5] == "repo." && role[5..] == names;
    RepositoryParts(role);
  }

  // ----- reading

  function Accesses(roles: seq<string>): seq<Access> {
    if roles == [] then []
    else
      var rest, role := Accesses(roles[..|roles| - 1]), roles[|roles| - 1];
      if role != ADMINISTRATOR && IsRepositoryRole(role) then rest + [Parsed(role)] else rest
  }

  /** JavaScript's order of strings, by code unit. */
  predicate Less(a: string, b: string) {
    if a == "" then b != "" else b != "" && (a[0] < b[0] || (a[0] == b[0] && Less(a[1..], b[1..])))
  }

  /** Each role that begins with `repo.` gives one access, in the order of the roles; no other role gives any. */
  lemma {:induction false} AccessesOf(a: seq<string>, role: string, b: seq<string>)
    ensures Accesses(a + [role] + b) ==
            Accesses(a) + (if "repo." <= role then [Parsed(role)] else []) + Accesses(b)
    decreases |b|
  {
    hide Parsed;
    if b == [] {
      assert (a + [role] + b)[..|a|] == a && a + [role] + b == a + [role];
      assert ADMINISTRATOR[0] != "repo."[0];
    } else {
      var front, last := b[..|b| - 1], b[|b| - 1];
      assert (a + [role] + b)[..|a| + |b|] == a + [role] + front && (a + [role] + b)[|a| + |b|] == last;
      AccessesOf(a, role, front);
    }
  }

  predicate SortedByRepository(a: seq<Access>) {
    forall i, j :: 0 <= i < j < |a| ==> !Less(a[j].repository, a[i].repository)
  }

  class UserRecord {
    var roles: seq<string>
    var isSystemAdministrator: bool
    var repositoryAccesses: seq<Access>

    constructor ()
      ensures roles == [] && repositoryAccesses == [] && !isSystemAdministrator
    {
      roles, repositoryAccesses, isSystemAdministrator := [], [], false;
    }

    /** Sorting in place; where the repository is the same, any order may come out. */
    method SortAccesses(accesses: seq<Access>) returns (sorted: seq<Access>)
      ensures SortedByRepository(sorted) && multiset(sorted) == multiset(accesses)
    {
      sorted := [];
      var i := 0;
      while i < |accesses|
        invariant 0 <= i <= |accesses|
        invariant SortedByRepository(sorted) && multiset(sorted) == multiset(accesses[..i])
      {
        var k := |sorted|;
        while k > 0 && Less(accesses[i].repository, sorted[k - 1].repository)
          invariant 0 <= k <= |sorted|
          invariant forall j :: k <= j < |sorted| ==> Less(accesses[i].repository, sorted[j].repository)
        {
          k := k - 1;
        }
        Inserted(sorted, k, accesses[i]);
        assert accesses[..i + 1] == accesses[..i] + [accesses[i]];
        sorted := sorted[..k] + [accesses[i]] + sorted[k..];
        i := i + 1;
      }
      assert accesses[..i] == accesses;
    }

    /** `fromApiObject`, as far as roles go. */
    method FromApiObject(apiRoles: seq<string>)
      modifies this
      ensures roles == apiRoles && isSystemAdministrator == (ADMINISTRATOR in apiRoles)
      ensures SortedByRepository(repositoryAccesses) && multiset(repositoryAccesses) == multiset(Accesses(apiRoles))
    {
      roles := apiRoles;
      var admin, accesses := false, [];
      var i := 0;
      while i < |apiRoles|
        invariant 0 <= i <= |apiRoles| && roles == apiRoles
        invariant admin == (ADMINISTRATOR in apiRoles[..i]) && accesses == Accesses(apiRoles[..i])
      {
        var role := apiRoles[i];
        assert apiRoles[..i + 1] == apiRoles[..i] + [role];
        if role == ADMINISTRATOR {
          admin := true;
        } else if IsRepositoryRole(role) {
          accesses := accesses + [Parsed(role)];
        }
        i := i + 1;
      }
      assert apiRoles[..i] == apiRoles;
      var sorted := SortAccesses(accesses);
      isSystemAdministrator, repositoryAccesses := admin, sorted;
    }

    /** `toApiObject`, as far as roles go. */
    method ToApiObject() returns (apiRoles: seq<string>)
      modifies `roles
      ensures roles == apiRoles == (if isSystemAdministrator then [ADMINISTRATOR]
                                    else []) + PrintedAll(repositoryAccesses)
    {
      apiRoles := [];
      if isSystemAdministrator { apiRoles := apiRoles + [ADMINISTRATOR]; }
      ghost var front := apiRoles;
      var i := 0;
      while i < |repositoryAccesses|
        invariant 0 <= i <= |repositoryAccesses|
        invariant apiRoles == front + PrintedAll(repositoryAccesses[..i])
      {
        assert repositoryAccesses[..i + 1][..i] == repositoryAccesses[..i];
        apiRoles := apiRoles + [Printed(repositoryAccesses[i])];
        i := i + 1;
      }
      assert repositoryAccesses[..i] == repositoryAccesses;
      roles := apiRoles;
    }
  }

  function PrintedAll(a: seq<Access>): seq<string> {
    if a == [] then [] else PrintedAll(a[..|a| - 1]) + [Printed(a[|a| - 1])]
  }

  /** The first `k` characters agree, and there `a` ends or has the smaller one. */
  predicate LessAt(a: string, b: string, k: int) {
    && 0 <= k <= |a| && k <= |b| && a[..k] == b[..k]
    && ((k == |a| && k < |b|) || (k < |a| && k < |b| && a[k] < b[k]))
  }

  /** A string comes before another if it is a proper beginning of it, or has the smaller character where they part. */
  lemma {:induction false} LessExactly(a: string, b: string)
    ensures Less(a, b) <==> exists k :: LessAt(a, b, k)
  {
    if a == "" || b == "" || a[0] != b[0] {
      if Less(a, b) {
        assert LessAt(a, b, 0);
      }
      if k :| LessAt(a, b, k) {
        SameStart(a, b, k);
      }
    } else {
      LessExactly(a[1..], b[1..]);
      if k :| LessAt(a[1..], b[1..], k) {
        assert a[..k + 1] == [a[0]] + a[1..][..k] && b[..k + 1] == [b[0]] + b[1..][..k];
        assert LessAt(a, b, k + 1);
      }
      if k :| LessAt(a, b, k) {
        assert k > 0 && a[1..][..k - 1] == a[..k][1..] && b[1..][..k - 1] == b[..k][1..];
        assert LessAt(a[1..], b[1..], k - 1);
      }
    }
  }

  lemma SameStart(a: string, b: string, k: nat)
    requires k <= |a| && k <= |b| && a[..k] == b[..k]
    ensures k > 0 ==> a[0] == b[0]
  {
    assert k > 0 ==> a[..k][0] == a[0] && b[..k][0] == b[0];
  }

  /** Of two different strings exactly one comes before the other. */
  lemma {:induction false} LessTotal(a: string, b: string)
    ensures a == b <==> !Less(a, b) && !Less(b, a)
  {
    if a != "" && b != "" && a[0] == b[0] {
      LessTotal(a[1..], b[1..]);
      assert a == [a[0]] + a[1..] && b == [b[0]] + b[1..];
    }
  }

  /** Where no two accesses name the same repository, there is only one order to sort them in. */
  lemma {:induction false} SortedOnce(a: seq<Access>, b: seq<Access>)
    requires SortedByRepository(a) && SortedByRepository(b) && multiset(a) == multiset(b)
    requires forall i, j :: 0 <= i < j < |a| ==> a[i].repository != a[j].repository
    ensures a == b
    decreases |a|
  {
    hide SortedByRepository;
    if a == [] {
      assert |multiset(a)| == |multiset(b)| == |b|;
    } else {
      assert b != [] by { assert |multiset(a)| == |multiset(b)|; }
      FirstOfSorted(a, b);
      SortedTail(a);
      SortedTail(b);
      assert a == [] + [a[0]] + a[1..] && b == [] + [b[0]] + b[1..];
      LeftOut([], a[0], a[1..]);
      LeftOut([], b[0], b[1..]);
      assert [] + a[1..] == a[1..] && [] + b[1..] == b[1..];
      SameLess(multiset(a[1..]), multiset(b[1..]), a[0]);
      SortedOnce(a[1..], b[1..]);
    }
  }

  lemma SortedTail(a: seq<Access>)
    requires SortedByRepository(a) && a != []
    ensures SortedByRepository(a[1..])
  {
    hide Less;
  }

  lemma FirstOfSorted(a: seq<Access>, b: seq<Access>)
    requires SortedByRepository(a) && SortedByRepository(b) && multiset(a) == multiset(b) && a != [] && b != []
    requires forall i, j :: 0 <= i < j < |a| ==> a[i].repository != a[j].repository
    ensures a[0] == b[0]
  {
    hide Less;
    assert b[0] in multiset(a) && a[0] in multiset(b);
    var i :| 0 <= i < |a| && a[i] == b[0];
    var j :| 0 <= j < |b| && b[j] == a[0];
    LessTotal(a[0].repository, b[0].repository);
  }

  lemma {:induction false} LessTransitive(a: string, b: string, c: string)
    requires Less(a, b) && !Less(c, b)
    ensures Less(a, c)
  {
    if a != "" && c != "" && a[0] == b[0] == c[0] {
      LessTransitive(a[1..], b[1..], c[1..]);
    }
  }

  lemma {:induction false} LessAsymmetric(a: string, b: string)
    requires Less(a, b)
    ensures !Less(b, a)
  {
    if a != "" && a[0] == b[0] {
      LessAsymmetric(a[1..], b[1..]);
    }
  }

  /** Inserting in front of all that are greater, behind one that is not. */
  lemma Inserted(s: seq<Access>, k: nat, x: Access)
    requires SortedByRepository(s) && k <= |s|
    requires forall j :: k <= j < |s| ==> Less(x.repository, s[j].repository)
    requires k > 0 ==> !Less(x.repository, s[k - 1].repository)
    ensures SortedByRepository(s[..k] + [x] + s[k..]) && multiset(s[..k] + [x] + s[k..]) == multiset(s) + multiset{x}
  {
    hide Less;
    var r := s[..k] + [x] + s[k..];
    assert s == s[..k] + s[k..];
    LeftOut(s[..k], x, s[k..]);
    forall i, j | 0 <= i < j < |r|
      ensures !Less(r[j].repository, r[i].repository)
    {
      if j == k {
        if Less(x.repository, s[i].repository) {
          LessTransitive(x.repository, s[i].repository, s[k - 1].repository);
          assert false;
        }
      } else if i == k {
        LessAsymmetric(x.repository, s[j - 1].repository);
      }
    }
  }

  // ----- what survives the round trip

  predicate HasThreeParts(role: string) {
    IsRepositoryRole(role) && |Split(role, '.')| == 3
  }

  predicate Lossless(roles: seq<string>) {
    && (forall i :: 0 <= i < |roles| ==> roles[i] == ADMINISTRATOR || HasThreeParts(roles[i]))
    && multiset(roles)[ADMINISTRATOR] <= 1
  }

  lemma PartsOfPrinted(a: Access)
    requires '.' !in a.repository && (a.role.Some? ==> '.' !in a.role.value)
    ensures IsRepositoryRole(Printed(a)) && Split(Printed(a), '.') ==
            ["repo", a.repository, if a.role.Some? then a.role.value else "undefined"]
    ensures Printed(a) != ADMINISTRATOR
  {
    var last := if a.role.Some? then a.role.value else "undefined";
    var tail := a.repository + "." + last;
    assert Printed(a) == "repo" + "." + tail;
    SplitFirst("repo", '.', tail);
    SplitFirst(a.repository, '.', last);
    SplitNone(last, '.');
    assert Printed(a)[0] == 'r';
  }

  /** A repository role is printed as it was exactly if it has three parts; what is printed always has. */
  lemma PrintedExactly(role: string)
    requires IsRepositoryRole(role)
    ensures Printed(Parsed(role)) == role <==> HasThreeParts(role)
    ensures HasThreeParts(Printed(Parsed(role))) && Printed(Parsed(role)) != ADMINISTRATOR
  {
    var parts, a := Split(role, '.'), Parsed(role);
    RepositoryParts(role);
    JoinSplit(role, '.');
    PartsOfPrinted(a);
    if |parts| == 3 {
      assert parts == ["repo", a.repository, a.role.value];
      JoinSplit(Printed(a), '.');
    }
  }

  /** The accesses are printed one for one, in their order. */
  lemma {:induction false} PrintedEach(a: seq<Access>)
    ensures |PrintedAll(a)| == |a| && forall i :: 0 <= i < |a| ==> PrintedAll(a)[i] == Printed(a[i])
    decreases |a|
  {
    hide Printed;
    if a != [] {
      PrintedEach(a[..|a| - 1]);
    }
  }

  lemma {:induction false} PrintedAppend(a: seq<Access>, b: seq<Access>)
    ensures PrintedAll(a + b) == PrintedAll(a) + PrintedAll(b)
    decreases |b|
  {
    hide Printed;
    if b == [] {
      assert a + b == a;
    } else {
      assert (a + b)[..|a + b| - 1] == a + b[..|b| - 1];
      PrintedAppend(a, b[..|b| - 1]);
    }
  }

  /** The order does not matter to what is printed. */
  lemma {:induction false} PrintedPermuted(a: seq<Access>, b: seq<Access>)
    requires multiset(a) == multiset(b)
    ensures multiset(PrintedAll(a)) == multiset(PrintedAll(b))
    decreases |a|
  {
    if a == [] {
      assert |multiset(a)| == |multiset(b)| == |b|;
    } else {
      var x, rest := a[|a| - 1], a[..|a| - 1];
      assert a == rest + [x];
      assert x in multiset(b);
      var k :| 0 <= k < |b| && b[k] == x;
      var front, back := b[..k], b[k + 1..];
      assert b == front + [x] + back;
      LeftOut(front, x, back);
      SameLess(multiset(rest), multiset(front + back), x);
      PrintedPermuted(rest, front + back);
      hide Printed;
      PrintedWithout(front, x, back);
    }
  }

  lemma PrintedWithout(front: seq<Access>, x: Access, back: seq<Access>)
    ensures multiset(PrintedAll(front + [x] + back)) == multiset(PrintedAll(front + back)) + multiset{Printed(x)}
  {
    assert PrintedAll([x]) == [Printed(x)] by { assert [x][..0] == []; }
    hide Printed, PrintedAll;
    PrintedAppend(front + [x], back);
    PrintedAppend(front, [x]);
    PrintedAppend(front, back);
    LeftOut(PrintedAll(front), Printed(x), PrintedAll(back));
  }

  lemma SameLess<T>(a: multiset<T>, b: multiset<T>, x: T)
    requires a + multiset{x} == b + multiset{x}
    ensures a == b
  {
    assert a == a + multiset{x} - multiset{x};
    assert b == b + multiset{x} - multiset{x};
  }

  lemma LeftOut<T>(a: seq<T>, x: T, b: seq<T>)
    ensures multiset(a + [x] + b) == multiset(a + b) + multiset{x}
  {
  }

  /** Everything printed has three parts and is not the administrator's role. */
  lemma {:induction false} PrintedRoles(roles: seq<string>)
    ensures forall r :: r in PrintedAll(Accesses(roles)) ==> HasThreeParts(r) && r != ADMINISTRATOR
    decreases |roles|
  {
    hide Parsed, Printed, HasThreeParts, IsRepositoryRole;
    if roles != [] {
      var rest, role := roles[..|roles| - 1], roles[|roles| - 1];
      PrintedRoles(rest);
      if role != ADMINISTRATOR && IsRepositoryRole(role) {
        PrintedExactly(role);
        PrintedAppend(Accesses(rest), [Parsed(role)]);
        assert PrintedAll([Parsed(role)]) == [Printed(Parsed(role))] by { assert [Parsed(role)][..0] == []; }
      }
    }
  }

  /** Roles of three parts are kept as often as they were given. */
  lemma {:induction false} ThreePartsKept(roles: seq<string>)
    requires forall i :: 0 <= i < |roles| ==> roles[i] == ADMINISTRATOR || HasThreeParts(roles[i])
    ensures forall r :: r != ADMINISTRATOR ==> multiset(PrintedAll(Accesses(roles)))[r] == multiset(roles)[r]
    decreases |roles|
  {
    hide Parsed, Printed;
    if roles != [] {
      var rest, role := roles[..|roles| - 1], roles[|roles| - 1];
      ThreePartsKept(rest);
      assert roles == rest + [role];
      if role != ADMINISTRATOR {
        PrintedExactly(role);
        PrintedAppend(Accesses(rest), [Parsed(role)]);
        assert PrintedAll([Parsed(role)]) == [Printed(Parsed(role))] by { assert [Parsed(role)][..0] == []; }
      }
      hide HasThreeParts, IsRepositoryRole, PrintedAll;
    }
  }

  /** The administrator's role, if it was there, in front of the repository roles. */
  function Reprinted(roles: seq<string>, accesses: seq<Access>): seq<string> {
    (if ADMINISTRATOR in roles then [ADMINISTRATOR] else []) + PrintedAll(accesses)
  }

  /**
   The API gets back the roles it gave, in some order, if and only if every role is the administrator's or
   a repository role of exactly three parts, and the administrator's is not given twice.
   */
  lemma LosslessExactly(roles: seq<string>, accesses: seq<Access>)
    requires multiset(accesses) == multiset(Accesses(roles))
    ensures multiset(Reprinted(roles, accesses)) == multiset(roles) <==> Lossless(roles)
  {
    hide HasThreeParts, PrintedAll, Accesses;
    var printed, output := PrintedAll(Accesses(roles)), Reprinted(roles, accesses);
    PrintedPermuted(accesses, Accesses(roles));
    PrintedRoles(roles);
    assert multiset(output) == multiset(if ADMINISTRATOR in roles then [ADMINISTRATOR] else []) + multiset(printed);
    assert ADMINISTRATOR !in printed;
    assert ADMINISTRATOR !in multiset(printed);
    if Lossless(roles) {
      ThreePartsKept(roles);
      forall r: string
        ensures multiset(output)[r] == multiset(roles)[r]
      {
        if r == ADMINISTRATOR {
          assert ADMINISTRATOR in roles <==> multiset(roles)[ADMINISTRATOR] > 0;
        }
      }
    }
    assert multiset(output)[ADMINISTRATOR] <= 1;
    if multiset(output) == multiset(roles) {
      forall i | 0 <= i < |roles|
        ensures roles[i] == ADMINISTRATOR || HasThreeParts(roles[i])
      {
        assert roles[i] in multiset(roles);
        assert roles[i] in multiset(output);
        assert roles[i] == ADMINISTRATOR || roles[i] in printed;
      }
    }
  }

  /** From the API and back. */
  method RoundTrip(user: UserRecord, apiRoles: seq<string>) returns (result: seq<string>)
    modifies user
    ensures multiset(result) == multiset(apiRoles) <==> Lossless(apiRoles)
    ensures ADMINISTRATOR in apiRoles ==> result != [] && result[0] == ADMINISTRATOR
    ensures SortedByRepository(user.repositoryAccesses)
    ensures result == Reprinted(apiRoles, user.repositoryAccesses)
  {
    hide HasThreeParts, PrintedAll, Accesses, Lossless, SortedByRepository;
    user.FromApiObject(apiRoles);
    LosslessExactly(apiRoles, user.repositoryAccesses);
    result := user.ToApiObject();
  }
}
