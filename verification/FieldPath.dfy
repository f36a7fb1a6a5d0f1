/** Field paths of a record as JSON pointers, and the paths that changed between two records. */
module FieldPath {
  import opened Common
  import opened Lex
  import opened Sorting

  /** A record member, or one property in the member that holds properties. */
  datatype Field = Member(name: string) | Property(name: string, property: string)

  // ---- Escaping ----

  function Escape(s: string): string {
    if s == "" then "" else (if s[0] == '~' then "~0" else if s[0] == '/' then "~1" else [s[0]]) + Escape(s[1..])
  }

  function Pointer(f: Field): string {
    match f
    case Member(m) => "/" + Escape(m)
    case Property(m, p) => "/" + Escape(m) + "/" + Escape(p)
  }

  /** Replaces each tilde followed by `digit` with `c`, from left to right. */
  function Pass(s: string, digit: char, c: char): string {
    if s == "" then ""
    else if s[0] == '~' && |s| > 1 && s[1] == digit then [c] + Pass(s[2..], digit, c)
    else [s[0]] + Pass(s[1..], digit, c)
  }

  /** Unescaping as section 4 of RFC 6901 orders it: first ~1, then ~0. */
  function Unescape(s: string): string {
    Pass(Pass(s, '1', '/'), '0', '~')
  }

  function EscapeTilde(s: string): string {
    if s == "" then "" else (if s[0] == '~' then "~0" else [s[0]]) + EscapeTilde(s[1..])
  }

  lemma {:induction false} FirstPass(s: string)
    ensures Pass(Escape(s), '1', '/') == EscapeTilde(s)
  {
    if s != "" {
      FirstPass(s[1..]);
      var rest := Escape(s[1..]);
      if s[0] == '~' {
        var e := "~0" + rest;
        assert e[0] == '~' && e[1] == '0' && e[1..] == ['0'] + rest && (['0'] + rest)[1..] == rest;
        assert Pass(e[1..], '1', '/') == ['0'] + Pass(rest, '1', '/');
        assert Pass(e, '1', '/') == ['~'] + (['0'] + Pass(rest, '1', '/'));
        assert ['~'] + (['0'] + Pass(rest, '1', '/')) == "~0" + Pass(rest, '1', '/');
      } else if s[0] == '/' {
        var e := "~1" + rest;
        assert e[0] == '~' && e[1] == '1' && e[2..] == rest;
      } else {
        assert ([s[0]] + rest)[1..] == rest;
      }
    }
  }

  lemma {:induction false} SecondPass(s: string)
    ensures Pass(EscapeTilde(s), '0', '~') == s
  {
    if s != "" {
      SecondPass(s[1..]);
      var rest := EscapeTilde(s[1..]);
      if s[0] == '~' {
        var e := "~0" + rest;
        assert e[0] == '~' && e[1] == '0' && e[2..] == rest;
      } else {
        assert ([s[0]] + rest)[1..] == rest;
      }
      assert s == [s[0]] + s[1..];
    }
  }

  /** Escaping and unescaping a reference token gives the token back. */
  lemma EscapeRoundTrip(s: string)
    ensures Unescape(Escape(s)) == s
  {
    FirstPass(s);
    SecondPass(s);
  }

  lemma {:induction false} EscapedHasNoSlash(s: string)
    ensures '/' !in Escape(s)
  {
    if s != "" {
      EscapedHasNoSlash(s[1..]);
    }
  }

  // ---- Pointers name fields ----

  function FirstSlash(s: string): nat {
    if s == "" || s[0] == '/' then 0 else 1 + FirstSlash(s[1..])
  }

  lemma {:induction false} FirstSlashHolds(s: string, rest: string)
    requires '/' !in s
    ensures FirstSlash(s + "/" + rest) == |s| && FirstSlash(s) == |s|
  {
    if s != "" {
      FirstSlashHolds(s[1..], rest);
      assert (s + "/" + rest)[1..] == s[1..] + "/" + rest;
    }
  }

  /** The field a pointer of one or two tokens names. */
  function FieldOf(pointer: string): Option<Field> {
    if pointer == "" || pointer[0] != '/' then None
    else
      var text := pointer[1..];
      var cut := FirstSlash(text);
      if cut >= |text| then Some(Member(Unescape(text)))
      else if '/' in text[cut + 1..] then None
      else Some(Property(Unescape(text[..cut]), Unescape(text[cut + 1..])))
  }

  /** A pointer names one field. */
  lemma PointerRoundTrip(f: Field)
    ensures FieldOf(Pointer(f)) == Some(f)
  {
    EscapeRoundTrip(f.name);
    EscapedHasNoSlash(f.name);
    if f.Member? {
      MemberPointer(Escape(f.name));
    } else {
      EscapeRoundTrip(f.property);
      EscapedHasNoSlash(f.property);
      PropertyPointer(Escape(f.name), Escape(f.property));
      assert Pointer(f) == "/" + (Escape(f.name) + "/" + Escape(f.property));
    }
  }

  lemma MemberPointer(m: string)
    requires '/' !in m
    ensures FieldOf("/" + m) == Some(Member(Unescape(m)))
  {
    assert ("/" + m)[1..] == m;
    FirstSlashHolds(m, "");
  }

  lemma PropertyPointer(m: string, p: string)
    requires '/' !in m && '/' !in p
    ensures FieldOf("/" + (m + "/" + p)) == Some(Property(Unescape(m), Unescape(p)))
  {
    var text := m + "/" + p;
    assert ("/" + text)[1..] == text;
    FirstSlashHolds(m, p);
    assert text[..|m|] == m && text[|m| + 1..] == p;
  }

  lemma PointerInjective(f: Field, g: Field)
    requires Pointer(f) == Pointer(g)
    ensures f == g
  {
    PointerRoundTrip(f);
    PointerRoundTrip(g);
  }

  // ---- The grammar ----

  /** A reference token of section 3 of RFC 6901: no slash, and every tilde starts ~0 or ~1. */
  predicate IsToken(t: string) {
    t == "" ||
    (if t[0] == '~' then |t| > 1 && (t[1] == '0' || t[1] == '1') && IsToken(t[2..])
     else t[0] != '/' && IsToken(t[1..]))
  }

  function Joined(tokens: seq<string>): string {
    if tokens == [] then "" else "/" + tokens[0] + Joined(tokens[1..])
  }

  /** Section 3 of RFC 6901: tokens, each after a slash. The empty pointer is left out. */
  ghost predicate IsPointer(path: string) {
    exists tokens: seq<string> :: tokens != [] && (forall t :: t in tokens ==> IsToken(t)) && path == Joined(tokens)
  }

  ghost predicate TildesOk(s: string) {
    forall i :: 0 <= i < |s| && s[i] == '~' ==> i + 1 < |s| && (s[i + 1] == '0' || s[i + 1] == '1')
  }

  /** ValidateFieldPath: one scan. */
  method ValidateFieldPath(path: string) returns (ok: bool)
    ensures ok == IsPointer(path)
  {
    ScanDecides(path);
    if |path| == 0 || path[0] != '/' {
      return false;
    }
    for i := 0 to |path|
      invariant forall k :: 0 <= k < i && path[k] == '~' ==>
                  k + 1 < |path| && (path[k + 1] == '0' || path[k + 1] == '1')
    {
      if path[i] == '~' {
        if i + 1 >= |path| || (path[i + 1] != '0' && path[i + 1] != '1') {
          return false;
        }
      }
    }
    return true;
  }

  lemma {:induction false} TokenTildes(t: string)
    ensures IsToken(t) <==> TildesOk(t) && '/' !in t
  {
    if t != "" {
      if t[0] == '~' {
        if |t| > 1 {
          TokenTildes(t[2..]);
          TildesAfterEscape(t);
        }
      } else {
        TokenTildes(t[1..]);
        TildesAfterOne(t);
      }
    }
  }

  lemma TildesAfterOne(t: string)
    requires t != "" && t[0] != '~'
    ensures TildesOk(t) <==> TildesOk(t[1..])
    ensures '/' in t <==> t[0] == '/' || '/' in t[1..]
  {
    assert t == [t[0]] + t[1..];
    if TildesOk(t) {
      forall i | 0 <= i < |t[1..]| && t[1..][i] == '~'
          ensures i + 1 < |t[1..]| && (t[1..][i + 1] == '0' || t[1..][i + 1] == '1') {
        assert t[i + 1] == '~';
      }
    }
    if TildesOk(t[1..]) {
      forall i | 0 <= i < |t| && t[i] == '~' ensures i + 1 < |t| && (t[i + 1] == '0' || t[i + 1] == '1') {
        assert t[1..][i - 1] == '~';
      }
    }
  }

  lemma TildesAfterEscape(t: string)
    requires |t| > 1 && t[0] == '~'
    ensures TildesOk(t) <==> (t[1] == '0' || t[1] == '1') && TildesOk(t[2..])
    ensures (t[1] == '0' || t[1] == '1') ==> ('/' in t <==> '/' in t[2..])
  {
    assert t == [t[0], t[1]] + t[2..];
    if TildesOk(t) {
      forall i | 0 <= i < |t[2..]| && t[2..][i] == '~'
          ensures i + 1 < |t[2..]| && (t[2..][i + 1] == '0' || t[2..][i + 1] == '1') {
        assert t[i + 2] == '~';
      }
    }
    if (t[1] == '0' || t[1] == '1') && TildesOk(t[2..]) {
      forall i | 0 <= i < |t| && t[i] == '~' ensures i + 1 < |t| && (t[i + 1] == '0' || t[i + 1] == '1') {
        if i > 1 {
          assert t[2..][i - 2] == '~';
        }
      }
    }
  }

  lemma TildesConcat(a: string, b: string)
    requires TildesOk(a) && TildesOk(b)
    ensures TildesOk(a + b)
  {
    forall i | 0 <= i < |a + b| && (a + b)[i] == '~'
      ensures i + 1 < |a + b| && ((a + b)[i + 1] == '0' || (a + b)[i + 1] == '1')
    {
      if i < |a| {
        assert a[i] == '~';
      } else {
        assert b[i - |a|] == '~';
      }
    }
  }

  lemma {:induction false} JoinedTildes(tokens: seq<string>)
    requires forall t :: t in tokens ==> IsToken(t)
    ensures TildesOk(Joined(tokens)) && (tokens != [] ==> Joined(tokens) != "" && Joined(tokens)[0] == '/')
  {
    if tokens != [] {
      JoinedTildes(tokens[1..]);
      TokenTildes(tokens[0]);
      TildesConcat("/", tokens[0]);
      TildesConcat("/" + tokens[0], Joined(tokens[1..]));
    }
  }

  lemma {:induction false} FirstSlashBound(s: string)
    ensures FirstSlash(s) <= |s| && '/' !in s[..FirstSlash(s)] && (FirstSlash(s) < |s| ==> s[FirstSlash(s)] == '/')
  {
    if s != "" && s[0] != '/' {
      FirstSlashBound(s[1..]);
      var n := FirstSlash(s[1..]);
      assert s[..n + 1] == [s[0]] + s[1..][..n];
    }
  }

  lemma TildesSplit(s: string, cut: nat)
    requires TildesOk(s) && cut <= |s| && (cut < |s| ==> s[cut] == '/')
    ensures TildesOk(s[..cut]) && TildesOk(s[cut..])
  {
    forall i | 0 <= i < cut && s[..cut][i] == '~'
        ensures i + 1 < cut && (s[..cut][i + 1] == '0' || s[..cut][i + 1] == '1') {
      assert s[i] == '~';
    }
    forall i | 0 <= i < |s[cut..]| && s[cut..][i] == '~'
        ensures i + 1 < |s[cut..]| && (s[cut..][i + 1] == '0' || s[cut..][i + 1] == '1') {
      assert s[cut + i] == '~';
    }
  }

  lemma FirstToken(path: string) returns (cut: nat)
    requires path != "" && path[0] == '/' && TildesOk(path)
    ensures 0 < cut <= |path| && IsToken(path[1..cut]) && path == "/" + path[1..cut] + path[cut..]
    ensures cut < |path| ==> path[cut] == '/' && TildesOk(path[cut..])
  {
    var text := path[1..];
    FirstSlashBound(text);
    cut := FirstSlash(text) + 1;
    TildesAfterOne(path);
    TildesSplit(text, cut - 1);
    TokenTildes(text[..cut - 1]);
    assert text[..cut - 1] == path[1..cut] && text[cut - 1..] == path[cut..];
  }

  /** Cutting at the slashes finds the tokens. */
  lemma {:induction false} SplitTokens(path: string) returns (tokens: seq<string>)
    requires path != "" && path[0] == '/' && TildesOk(path)
    ensures tokens != [] && (forall t :: t in tokens ==> IsToken(t)) && path == Joined(tokens)
    decreases |path|
  {
    var cut := FirstToken(path);
    var rest: seq<string> := [];
    if cut < |path| {
      rest := SplitTokens(path[cut..]);
    } else {
      assert path[cut..] == "";
    }
    tokens := [path[1..cut]] + rest;
    assert tokens[1..] == rest;
  }

  lemma ScanDecides(path: string)
    ensures IsPointer(path) <==> path != "" && path[0] == '/' && TildesOk(path)
  {
    if IsPointer(path) {
      var tokens: seq<string> :| tokens != [] && (forall t :: t in tokens ==> IsToken(t)) && path == Joined(tokens);
      JoinedTildes(tokens);
    }
    if path != "" && path[0] == '/' && TildesOk(path) {
      var tokens := SplitTokens(path);
    }
  }

  lemma {:induction false} EscapedIsToken(s: string)
    ensures IsToken(Escape(s))
  {
    if s != "" {
      EscapedIsToken(s[1..]);
      var rest := Escape(s[1..]);
      assert ("~0" + rest)[2..] == rest && ("~1" + rest)[2..] == rest && ([s[0]] + rest)[1..] == rest;
    }
  }

  /** Every path the program writes is one it accepts. */
  lemma PointerIsAccepted(f: Field)
    ensures IsPointer(Pointer(f))
  {
    EscapedIsToken(f.name);
    match f
    case Member(m) =>
      var tokens := [Escape(m)];
      assert tokens[1..] == [] && Joined(tokens) == Pointer(f) + "";
      assert Pointer(f) + "" == Pointer(f);
    case Property(m, p) =>
      EscapedIsToken(p);
      var tokens := [Escape(m), Escape(p)];
      assert tokens[1..] == [Escape(p)] && [Escape(p)][1..] == [];
      assert Joined([Escape(p)]) == "/" + Escape(p);
      assert Joined(tokens) == "/" + Escape(m) + ("/" + Escape(p));
      assert "/" + Escape(m) + ("/" + Escape(p)) == Pointer(f);
  }

  // ---- Changed fields ----

  type Text = seq<char>

  /** A member's compact value, and its own members when it is an object; null counts as an empty one. */
  datatype Value = Value(text: Text, properties: Option<map<string, Text>>)

  /** One encoded record: absent, not an object, or its members. */
  datatype Record = Missing | Broken | Members(members: map<string, Value>)

  const PROPERTIES := "props"

  predicate Bookkeeping(member: string) {
    member in {"id", "org_id", "node_type", "created_at", "created_by", "updated_at", "updated_by"}
  }

  /** A record that decodes: its property member, if any, is an object. */
  predicate Decodes(r: Record) {
    !r.Broken? && (r.Members? && PROPERTIES in r.members ==> r.members[PROPERTIES].properties.Some?)
  }

  /** The value of a field in a record; bookkeeping members have none. */
  function ValueOf(r: Record, f: Field): Option<Text> {
    if !r.Members? || f.name !in r.members || Bookkeeping(f.name) then None
    else
      match f
      case Member(m) => if m == PROPERTIES then None else Some(r.members[m].text)
      case Property(m, p) =>
        var properties := r.members[m].properties;
        if m == PROPERTIES && properties.Some? && p in properties.value then Some(properties.value[p]) else None
  }

  /** A field that differs, or is in one record only. */
  predicate Differs(before: Record, after: Record, f: Field) {
    ValueOf(before, f) != ValueOf(after, f)
  }

  ghost predicate Holds(fields: map<Field, Text>, r: Record) {
    forall f :: (f in fields <==> ValueOf(r, f).Some?) && (f in fields ==> ValueOf(r, f) == Some(fields[f]))
  }

  /** The members, except the bookkeeping and the properties as a whole. */
  ghost predicate MembersCompared(fields: map<Field, Text>, r: Record) {
    forall m: string ::
      && (Member(m) in fields <==>
            && r.Members? && m in r.members && m != "props"
            && m !in ["id", "org_id", "node_type", "created_at", "created_by", "updated_at", "updated_by"])
      && (Member(m) in fields && r.Members? && m in r.members ==> fields[Member(m)] == r.members[m].text)
  }

  /** Each property on its own. */
  ghost predicate PropertiesCompared(fields: map<Field, Text>, r: Record) {
    forall m: string, p: string ::
      && (Property(m, p) in fields <==> m == "props" && HasProperty(r, m, p))
      && (Property(m, p) in fields && HasProperty(r, m, p) ==>
            fields[Property(m, p)] == r.members[m].properties.value[p])
  }

  predicate HasProperty(r: Record, m: string, p: string) {
    r.Members? && m in r.members && r.members[m].properties.Some? && p in r.members[m].properties.value
  }

  lemma HoldsCompared(fields: map<Field, Text>, r: Record)
    requires Holds(fields, r)
    ensures MembersCompared(fields, r) && PropertiesCompared(fields, r)
  {
    forall f: Field ensures f in fields <==> ValueOf(r, f).Some? {
    }
  }

  /** recordFields: every member that is compared, and every property on its own. */
  method RecordFields(r: Record) returns (ok: bool, fields: map<Field, Text>)
    ensures ok == Decodes(r)
    ensures ok ==> Holds(fields, r) && MembersCompared(fields, r) && PropertiesCompared(fields, r)
  {
    fields := map[];
    if r.Missing? {
      HoldsCompared(fields, r);
      return true, fields;
    }
    if r.Broken? {
      return false, fields;
    }
    var todo := r.members.Keys;
    while todo != {}
      invariant todo <= r.members.Keys
      invariant PROPERTIES in r.members && PROPERTIES !in todo ==> r.members[PROPERTIES].properties.Some?
      invariant forall f :: f in fields <==> f.name !in todo && ValueOf(r, f).Some?
      invariant forall f :: f in fields ==> ValueOf(r, f) == Some(fields[f])
      decreases todo
    {
      var member :| member in todo;
      todo := todo - {member};
      if Bookkeeping(member) {
        continue;
      }
      if member != PROPERTIES {
        fields := fields[Member(member) := r.members[member].text];
        continue;
      }
      if r.members[member].properties.None? {
        return false, fields;
      }
      fields := AddProperties(fields, member, r.members[member].properties.value);
    }
    HoldsCompared(fields, r);
    ok := true;
  }

  predicate IsProperty(f: Field, member: string, names: set<string>) {
    f.Property? && f.name == member && f.property in names
  }

  method AddProperties(fields: map<Field, Text>, member: string,
        values: map<string, Text>) returns (all: map<Field, Text>)
    ensures forall f :: f in all <==> f in fields || IsProperty(f, member, values.Keys)
    ensures forall f :: f in all ==> all[f] == if IsProperty(f, member, values.Keys) then values[f.property]
            else fields[f]
  {
    all := fields;
    var todo := values.Keys;
    while todo != {}
      invariant todo <= values.Keys
      invariant forall f :: f in all <==> f in fields || IsProperty(f, member, values.Keys - todo)
      invariant forall f :: f in all ==> all[f] == if IsProperty(f, member, values.Keys - todo)
                then values[f.property] else fields[f]
      decreases todo
    {
      var p :| p in todo;
      todo := todo - {p};
      all := all[Property(member, p) := values[p]];
    }
  }

  ghost predicate NoRepeats(s: seq<string>) {
    forall i, j :: 0 <= i < j < |s| ==> s[i] != s[j]
  }

  /** The pointers of exactly these fields, each once. */
  ghost predicate Names(s: seq<string>, fields: iset<Field>) {
    NoRepeats(s) && (forall p :: p in s ==> exists f :: f in fields && Pointer(f) == p)
        && (forall f :: f in fields ==> Pointer(f) in s)
  }

  lemma NamesNext(s: seq<string>, fields: iset<Field>, f: Field)
    requires Names(s, fields) && f !in fields
    ensures Names(s + [Pointer(f)], fields + iset{f})
  {
    assert Pointer(f) !in s by {
      if Pointer(f) in s {
        var g :| g in fields && Pointer(g) == Pointer(f);
        PointerInjective(f, g);
      }
    }
    forall p | p in s + [Pointer(f)] ensures exists g :: g in fields + iset{f} && Pointer(g) == p {
      if p in s {
        var g :| g in fields && Pointer(g) == p;
        assert g in fields + iset{f};
      } else {
        assert f in fields + iset{f} && Pointer(f) == p;
      }
    }
  }

  ghost function Changed(before: Record, after: Record): iset<Field> {
    iset f: Field | Differs(before, after, f)
  }

  method DifferingFields(was: map<Field, Text>, now: map<Field, Text>) returns (changed: seq<string>)
    ensures Names(changed, DifferingIn(was, now))
  {
    ghost var named;
    changed, named := GoneOrChanged(was, now);
    changed, named := Added(was, now, changed, named);
    assert named == DifferingIn(was, now);
  }

  ghost function DifferingIn(was: map<Field, Text>, now: map<Field, Text>): iset<Field> {
    iset f: Field | (f in was) != (f in now) || (f in was && f in now && was[f] != now[f])
  }

  method GoneOrChanged(was: map<Field, Text>, now: map<Field, Text>) returns (changed: seq<string>,
        ghost named: iset<Field>)
    ensures Names(changed, named) && forall f :: f in named <==> f in was && !(f in now && was[f] == now[f])
  {
    changed := [];
    named := iset{};
    var todo := was.Keys;
    while todo != {}
      invariant todo <= was.Keys && Names(changed, named)
      invariant forall f :: f in named <==> f in was && f !in todo && !(f in now && was[f] == now[f])
      decreases todo
    {
      var f :| f in todo;
      todo := todo - {f};
      if f in now && was[f] == now[f] {
        continue;
      }
      NamesNext(changed, named, f);
      named := named + iset{f};
      changed := changed + [Pointer(f)];
    }
  }

  method Added(was: map<Field, Text>, now: map<Field, Text>, found: seq<string>, ghost before: iset<Field>)
      returns (changed: seq<string>, ghost named: iset<Field>)
    requires Names(found, before) && forall f :: f in before ==> f in was
    ensures Names(changed, named) && forall f :: f in named <==> f in before || (f in now && f !in was)
  {
    changed, named := found, before;
    var todo := now.Keys;
    while todo != {}
      invariant todo <= now.Keys && Names(changed, named)
      invariant forall f :: f in named <==> f in before || (f in now && f !in todo && f !in was)
      decreases todo
    {
      var f :| f in todo;
      todo := todo - {f};
      if f !in was {
        NamesNext(changed, named, f);
        named := named + iset{f};
        changed := changed + [Pointer(f)];
      }
    }
  }

  ghost predicate Ascending(s: seq<string>) {
    forall i, j :: 0 <= i < j < |s| ==> s[i] != s[j] && StringLe(s[i], s[j])
  }

  lemma SortedNames(s: seq<string>, fields: iset<Field>)
    requires Names(s, fields)
    ensures Names(Sort(StringLe, s), fields) && Ascending(Sort(StringLe, s))
  {
    var t := Sort(StringLe, s);
    StringOrder();
    SortSorts(StringLe, s);
    SortContents(StringLe, s);
    forall p ensures p in t <==> p in s {
      assert p in multiset(t) <==> p in multiset(s);
    }
    forall i, j | 0 <= i < j < |t| ensures t[i] != t[j] {
      CountsTwice(t, i, j);
      OccursOnce(s, t[i]);
    }
  }

  lemma OccursOnce(s: seq<string>, p: string)
    requires NoRepeats(s)
    ensures multiset(s)[p] <= 1
  {
    if p in s {
      var i :| 0 <= i < |s| && s[i] == p;
      assert s == s[..i] + [p] + s[i + 1..];
      assert p !in s[..i] && p !in s[i + 1..];
      assert multiset(s) == multiset(s[..i]) + multiset{p} + multiset(s[i + 1..]);
    }
  }

  /** changedFields: the pointers of the fields that differ, in order, none missing and none twice. */
  method ChangedFields(before: Record, after: Record) returns (ok: bool, changed: seq<string>)
    ensures ok == (Decodes(before) && Decodes(after))
    ensures ok ==> Names(changed, Changed(before, after)) && Ascending(changed)
    ensures ok ==> forall i, j :: 0 <= i < j < |changed| ==> Exceeds(changed[j], changed[i])
  {
    changed := [];
    var was, now;
    ok, was := RecordFields(before);
    if !ok {
      return;
    }
    ok, now := RecordFields(after);
    if !ok {
      return;
    }
    var found := DifferingFields(was, now);
    assert DifferingIn(was, now) == Changed(before, after);
    SortedNames(found, Changed(before, after));
    changed := Sort(StringLe, found);
    forall i, j | 0 <= i < j < |changed| ensures Exceeds(changed[j], changed[i]) {
      StringOrder();
      StringExceeds(changed[j], changed[i]);
    }
  }
}
