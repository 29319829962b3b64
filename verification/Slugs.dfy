/** The slug makers (WorkspacesPage.tsx `slugify`, auth_service.go `SelfSignup`) against the slug recogniser
    (tenant/validate.go). Lower-casing is the platform's: any function from strings to strings. */
module Slugs {
  import opened Prelude

  predicate IsAlnum(c: char) {
    'a' <= c <= 'z' || '0' <= c <= '9'
  }

  predicate AllAlnum(s: string) {
    forall c :: c in s ==> IsAlnum(c)
  }

  // ---- the recogniser ----

  /** `^[a-z0-9]+(-[a-z0-9]+)*$`, read left to right. */
  predicate IsValidSlug(s: string) {
    s != [] && IsAlnum(s[0]) && SlugTail(s[1..])
  }

  /** What may follow a letter or digit. */
  predicate SlugTail(s: string) {
    s == [] || (if IsAlnum(s[0]) then SlugTail(s[1..]) else s[0] == '-' && IsValidSlug(s[1..]))
  }

  function Join(parts: seq<string>): string
    requires parts != []
  {
    if |parts| == 1 then parts[0] else parts[0] + "-" + Join(parts[1..])
  }

  /** The words of the pattern: one or more non-empty words of letters and digits. */
  predicate Words(parts: seq<string>) {
    parts != [] && forall k :: 0 <= k < |parts| ==> parts[k] != [] && AllAlnum(parts[k])
  }

  lemma {:induction false} TailOfWord(w: string, rest: string)
    requires AllAlnum(w)
    ensures SlugTail(w + rest) == SlugTail(rest)
  {
    if w == [] {
      assert w + rest == rest;
    } else {
      TailOfWord(w[1..], rest);
      assert (w + rest)[0] == w[0] && (w + rest)[1..] == w[1..] + rest;
    }
  }

  lemma {:induction false} WordsAccepted(parts: seq<string>)
    requires Words(parts)
    ensures IsValidSlug(Join(parts))
    decreases |parts|
  {
    var w := parts[0];
    if |parts| == 1 {
      TailOfWord(w[1..], []);
      assert w[1..] + [] == w[1..];
    } else {
      var rest := "-" + Join(parts[1..]);
      WordsAccepted(parts[1..]);
      assert rest[1..] == Join(parts[1..]);
      TailOfWord(w[1..], rest);
      assert Join(parts)[0] == w[0] && Join(parts)[1..] == w[1..] + rest;
    }
  }

  lemma {:induction false} AcceptedHasWords(s: string) returns (parts: seq<string>)
    requires IsValidSlug(s)
    ensures Words(parts) && Join(parts) == s
    decreases |s|
  {
    var t := s[1..];
    if t == [] {
      parts := [s];
    } else if IsAlnum(t[0]) {
      var p := AcceptedHasWords(t);
      parts := [[s[0]] + p[0]] + p[1..];
      assert parts[1..] == p[1..];
      if |p| > 1 {
        assert ([s[0]] + p[0]) + "-" + Join(p[1..]) == [s[0]] + (p[0] + "-" + Join(p[1..]));
      }
    } else {
      var p := AcceptedHasWords(t[1..]);
      parts := [[s[0]]] + p;
      assert parts[1..] == p;
      assert t == "-" + t[1..];
    }
  }

  /** The recogniser accepts exactly what the pattern describes. */
  lemma RecogniserIsPattern(s: string)
    ensures IsValidSlug(s) <==> exists parts :: Words(parts) && Join(parts) == s
  {
    if IsValidSlug(s) {
      var parts := AcceptedHasWords(s);
    }
    if parts :| Words(parts) && Join(parts) == s {
      WordsAccepted(parts);
    }
  }

  // ---- slugify ----

  /** The string after its leading run of other characters. */
  function SkipOthers(s: string): (r: string)
    ensures |r| <= |s| && (r != [] ==> IsAlnum(r[0]))
  {
    if s == [] || IsAlnum(s[0]) then s else SkipOthers(s[1..])
  }

  /** `replace(/[^a-z0-9]+/g, '-')` */
  function Collapse(s: string): string
    decreases |s|
  {
    if s == [] then []
    else if IsAlnum(s[0]) then [s[0]] + Collapse(s[1..])
    else "-" + Collapse(SkipOthers(s[1..]))
  }

  /** `replace(/^-|-$/g, '')` */
  function TrimDashes(s: string): string {
    var t := if s != [] && s[0] == '-' then s[1..] else s;
    if t != [] && t[|t| - 1] == '-' then t[..|t| - 1] else t
  }

  function Slugify(lower: string -> string, name: string): string {
    TrimDashes(Collapse(lower(name)))
  }

  /** The letters and digits of a string, in order. */
  function Letters(s: string): string {
    if s == [] then [] else (if IsAlnum(s[0]) then [s[0]] else []) + Letters(s[1..])
  }

  lemma {:induction false} LettersAppend(a: string, b: string)
    ensures Letters(a + b) == Letters(a) + Letters(b)
  {
    if a == [] {
      assert a + b == b;
    } else {
      LettersAppend(a[1..], b);
      var all, head := a + b, if IsAlnum(a[0]) then [a[0]] else [];
      assert all[0] == a[0];
      assert all[1..] == a[1..] + b;
      assert Letters(all) == head + Letters(all[1..]);
      ConcatAssoc(head, Letters(a[1..]), Letters(b));
    }
  }

  lemma {:induction false} SkipKeepsLetters(s: string)
    ensures Letters(SkipOthers(s)) == Letters(s)
  {
    if s != [] && !IsAlnum(s[0]) { SkipKeepsLetters(s[1..]); }
  }

  /** A collapsed string that starts with a letter or digit is a slug, or a slug and one dash. */
  ghost predicate SlugAndDash(t: string) {
    IsValidSlug(t) || (t != [] && t[|t| - 1] == '-' && IsValidSlug(t[..|t| - 1]))
  }

  /** Collapsing keeps the letters and digits. */
  lemma {:induction false} CollapsedLetters(s: string)
    ensures Letters(Collapse(s)) == Letters(s)
    decreases |s|
  {
    if s != [] {
      var c := Collapse(s);
      if IsAlnum(s[0]) {
        CollapsedLetters(s[1..]);
        assert c[1..] == Collapse(s[1..]);
      } else {
        CollapsedLetters(SkipOthers(s[1..]));
        SkipKeepsLetters(s[1..]);
        assert c[1..] == Collapse(SkipOthers(s[1..]));
      }
    }
  }

  lemma {:induction false} CollapsedShape(s: string)
    requires s != [] && IsAlnum(s[0])
    ensures SlugAndDash(Collapse(s)) && Collapse(s)[0] == s[0]
    decreases |s|
  {
    var t := s[1..];
    var c := Collapse(s);
    assert c[1..] == Collapse(t);
    if t == [] {
      assert c == s;
    } else if IsAlnum(t[0]) {
      CollapsedShape(t);
      Extend(s[0], Collapse(t));
    } else {
      var rest := SkipOthers(t[1..]);
      assert Collapse(t)[1..] == Collapse(rest);
      if rest == [] {
        assert c[..|c| - 1] == [s[0]];
      } else {
        CollapsedShape(rest);
        DashThen(s[0], Collapse(rest));
        assert c == [s[0], '-'] + Collapse(rest);
      }
    }
  }

  lemma Extend(c: char, t: string)
    requires IsAlnum(c) && SlugAndDash(t)
    ensures SlugAndDash([c] + t)
  {
    assert ([c] + t)[1..] == t;
    if !IsValidSlug(t) {
      var u := t[..|t| - 1];
      assert ([c] + t)[..|t|] == [c] + u && ([c] + u)[1..] == u;
    }
  }

  lemma DashThen(c: char, t: string)
    requires IsAlnum(c) && SlugAndDash(t)
    ensures SlugAndDash([c, '-'] + t)
  {
    var r := [c, '-'] + t;
    assert r[1..] == ['-'] + t && (['-'] + t)[1..] == t;
    if !IsValidSlug(t) {
      var u := t[..|t| - 1];
      assert r[..|r| - 1] == [c, '-'] + u && ([c, '-'] + u)[1..] == ['-'] + u && (['-'] + u)[1..] == u;
    }
  }

  lemma {:induction false} ValidSlugEnds(s: string)
    requires IsValidSlug(s)
    ensures s[0] != '-' && s[|s| - 1] != '-'
    decreases |s|
  {
    var t := s[1..];
    if t != [] {
      if IsAlnum(t[0]) { ValidSlugEnds(t); } else { ValidSlugEnds(t[1..]); }
    }
  }

  lemma TrimShape(t: string)
    requires SlugAndDash(t)
    ensures IsValidSlug(TrimDashes(t)) && Letters(TrimDashes(t)) == Letters(t)
    ensures t[0] != '-'
  {
    if IsValidSlug(t) {
      ValidSlugEnds(t);
    } else {
      var u := t[..|t| - 1];
      ValidSlugEnds(u);
      assert t == u + "-";
      LettersAppend(u, "-");
      assert "-"[1..] == "";
    }
  }

  lemma {:induction false} NoLettersCollapse(s: string)
    requires Letters(s) == []
    ensures SkipOthers(s) == []
  {
    if s != [] { NoLettersCollapse(s[1..]); }
  }

  /** Whatever the name, the result is an accepted slug with the letters and digits of the lower-cased name in order;
      it is empty exactly when there are none. */
  lemma SlugifyAccepted(lower: string -> string, name: string)
    ensures Slugify(lower, name) == [] || IsValidSlug(Slugify(lower, name))
    ensures Letters(Slugify(lower, name)) == Letters(lower(name))
    ensures Slugify(lower, name) == [] <==> Letters(lower(name)) == []
  {
    var s := lower(name);
    if Letters(s) == [] {
      NoLettersCollapse(s);
      if s != [] {
        NoLettersCollapse(s[1..]);
        assert Collapse(s) == "-" + [] == "-";
      }
    } else {
      var t := SkipOthers(s);
      SkipKeepsLetters(s);
      CollapsedShape(t);
      CollapsedLetters(t);
      TrimShape(Collapse(t));
      if !IsAlnum(s[0]) {
        assert SkipOthers(s[1..]) == t;
        assert Collapse(s)[1..] == Collapse(t);
        TrimLeading(Collapse(t));
      }
    }
  }

  lemma TrimLeading(t: string)
    requires t != [] && t[0] != '-'
    ensures TrimDashes("-" + t) == TrimDashes(t)
  {
  }

  // ---- what the slug is made of ----

  /** By code point: the ASCII digits and small letters. */
  lemma AlnumIs(c: char)
    ensures IsAlnum(c) <==> 48 <= c as int < 58 || 97 <= c as int < 123
  {
  }

  /** The words of a string: its longest runs of letters and digits, in order. */
  function WordsOf(s: string): (parts: seq<string>)
    ensures s != [] && IsAlnum(s[0]) ==> parts != []
    ensures forall k :: 0 <= k < |parts| ==> parts[k] != [] && AllAlnum(parts[k])
  {
    if s == [] then []
    else if !IsAlnum(s[0]) then WordsOf(s[1..])
    else
      var rest := WordsOf(s[1..]);
      if |s| > 1 && IsAlnum(s[1]) then [[s[0]] + rest[0]] + rest[1..] else [[s[0]]] + rest
  }

  lemma {:induction false} SkipKeepsWords(s: string)
    ensures WordsOf(SkipOthers(s)) == WordsOf(s)
  {
    if s != [] && !IsAlnum(s[0]) { SkipKeepsWords(s[1..]); }
  }

  lemma JoinLonger(c: char, parts: seq<string>)
    requires parts != []
    ensures Join([[c] + parts[0]] + parts[1..]) == [c] + Join(parts)
  {
    var longer := [[c] + parts[0]] + parts[1..];
    assert longer[1..] == parts[1..];
    if |parts| > 1 {
      assert ([c] + parts[0]) + "-" + Join(parts[1..]) == [c] + (parts[0] + "-" + Join(parts[1..]));
    }
  }

  lemma JoinMore(w: string, parts: seq<string>)
    requires parts != []
    ensures Join([w] + parts) == w + "-" + Join(parts)
  {
    assert ([w] + parts)[1..] == parts;
  }

  /** The string is those words joined, perhaps with a dash after them. */
  ghost predicate JoinedOrDash(t: string, parts: seq<string>)
    requires parts != []
  {
    t == Join(parts) || t == Join(parts) + "-"
  }

  lemma {:induction false} CollapsedWords(s: string)
    requires s != [] && IsAlnum(s[0])
    ensures JoinedOrDash(Collapse(s), WordsOf(s))
    decreases |s|
  {
    var t := s[1..];
    if t == [] {
      assert s == [s[0]] && Collapse(t) == [] && WordsOf(t) == [];
      assert Collapse(s) == s && WordsOf(s) == [s];
    } else if IsAlnum(t[0]) {
      CollapsedWords(t);
      LetterBefore(s[0], Collapse(t), WordsOf(t));
    } else {
      var rest := SkipOthers(t[1..]);
      SkipKeepsWords(t[1..]);
      assert WordsOf(s) == [[s[0]]] + WordsOf(rest);
      assert Collapse(s) == [s[0]] + "-" + Collapse(rest);
      if rest != [] {
        CollapsedWords(rest);
        WordBefore([s[0]], Collapse(rest), WordsOf(rest));
      }
    }
  }

  lemma WordBefore(w: string, t: string, parts: seq<string>)
    requires parts != [] && JoinedOrDash(t, parts)
    ensures JoinedOrDash(w + "-" + t, [w] + parts)
  {
    JoinMore(w, parts);
    assert w + "-" + (Join(parts) + "-") == (w + "-" + Join(parts)) + "-";
  }

  lemma LetterBefore(c: char, t: string, parts: seq<string>)
    requires parts != [] && JoinedOrDash(t, parts)
    ensures JoinedOrDash([c] + t, [[c] + parts[0]] + parts[1..])
  {
    JoinLonger(c, parts);
    assert [c] + (Join(parts) + "-") == ([c] + Join(parts)) + "-";
  }

  lemma TrimJoined(t: string, parts: seq<string>)
    requires Words(parts) && JoinedOrDash(t, parts)
    ensures TrimDashes(t) == Join(parts)
  {
    WordsAccepted(parts);
    ValidSlugEnds(Join(parts));
    if t == Join(parts) + "-" { assert t[..|t| - 1] == Join(parts); }
  }

  /** The slug of a name is the words of the lower-cased name, joined by single dashes. */
  lemma SlugifyJoinsWords(lower: string -> string, name: string)
    ensures var parts := WordsOf(lower(name));
      Slugify(lower, name) == if parts == [] then [] else Join(parts)
  {
    var s := lower(name);
    var t := SkipOthers(s);
    SkipKeepsWords(s);
    if t == [] {
      if s != [] { assert Collapse(s) == "-" + Collapse([]) == "-"; }
    } else {
      CollapsedWords(t);
      TrimJoined(Collapse(t), WordsOf(t));
      if !IsAlnum(s[0]) {
        assert Collapse(s) == "-" + Collapse(t);
        CollapsedShape(t);
        TrimShape(Collapse(t));
        TrimLeading(Collapse(t));
      }
    }
  }

  lemma {:induction false} CollapseFixesTail(s: string)
    requires SlugTail(s)
    ensures Collapse(s) == s
    decreases |s|
  {
    if s != [] {
      if IsAlnum(s[0]) {
        CollapseFixesTail(s[1..]);
      } else {
        assert SkipOthers(s[1..]) == s[1..];
        CollapseFixesTail(s[1..][1..]);
        assert Collapse(s[1..]) == [s[1]] + Collapse(s[1..][1..]);
        assert s == "-" + s[1..];
      }
    }
  }

  /** Every accepted slug that lower-casing leaves alone is a fixed point: making a slug of a slug changes nothing. */
  lemma SlugifyFixesSlugs(lower: string -> string, s: string)
    requires IsValidSlug(s) && lower(s) == s
    ensures Slugify(lower, s) == s
  {
    assert SlugTail(s);
    CollapseFixesTail(s);
    ValidSlugEnds(s);
  }

  // ---- the slug of a self-signup ----

  /** `strings.Split(email, "@")[0]` */
  function Prefix(email: string): string {
    if email == [] || email[0] == '@' then [] else [email[0]] + Prefix(email[1..])
  }

  predicate IsHexId(id: string) {
    |id| == 8 && forall c :: c in id ==> '0' <= c <= '9' || 'a' <= c <= 'f'
  }

  function SignupSlug(lower: string -> string, email: string, id: string): string {
    var sanitized := Letters(lower(Prefix(email)));
    (if sanitized == [] then "user" else sanitized) + "-" + id
  }

  lemma {:induction false} LettersAreWords(s: string)
    ensures Letters(s) == Flatten(WordsOf(s))
  {
    if s != [] {
      var rest := WordsOf(s[1..]);
      LettersAreWords(s[1..]);
      if IsAlnum(s[0]) {
        if |s| > 1 && IsAlnum(s[1]) {
          assert WordsOf(s)[1..] == rest[1..];
          ConcatAssoc([s[0]], rest[0], Flatten(rest[1..]));
        } else {
          assert WordsOf(s)[1..] == rest;
        }
      }
    }
  }

  lemma {:induction false} PrefixIs(name: string, rest: string)
    requires '@' !in name && (rest == [] || rest[0] == '@')
    ensures Prefix(name + rest) == name
  {
    if name == [] {
      assert name + rest == rest;
    } else {
      PrefixIs(name[1..], rest);
      assert (name + rest)[0] == name[0] && (name + rest)[1..] == name[1..] + rest;
    }
  }

  /** The slug of a signup is made of what stands before the first `@`: its words as one, or "user" if it has none. */
  lemma SignupSlugIs(lower: string -> string, name: string, rest: string, id: string)
    requires '@' !in name && (rest == [] || rest[0] == '@')
    ensures var word := Flatten(WordsOf(lower(name)));
      SignupSlug(lower, name + rest, id) == (if word == [] then "user" else word) + "-" + id
  {
    PrefixIs(name, rest);
    LettersAreWords(lower(name));
  }

  lemma {:induction false} LettersAllAlnum(s: string)
    ensures AllAlnum(Letters(s))
  {
    if s != [] { LettersAllAlnum(s[1..]); }
  }

  /** Every slug built at signup is accepted, whatever the address, and keeps the first eight digits of the new UUID
      apart. */
  lemma SignupSlugAccepted(lower: string -> string, email: string, id: string)
    requires IsHexId(id)
    ensures IsValidSlug(SignupSlug(lower, email, id))
    ensures forall other, id' :: IsHexId(id') && SignupSlug(lower, email, id) == SignupSlug(lower, other, id') ==>
      id == id'
  {
    var sanitized := Letters(lower(Prefix(email)));
    var word := if sanitized == [] then "user" else sanitized;
    LettersAllAlnum(lower(Prefix(email)));
    WordsAccepted([word, id]);
    assert Join([word, id]) == word + "-" + id;
    forall other, id' | IsHexId(id') && SignupSlug(lower, email, id) == SignupSlug(lower, other, id')
      ensures id == id'
    {
      var a, b := SignupSlug(lower, email, id), SignupSlug(lower, other, id');
      assert a[|a| - 8..] == id && b[|b| - 8..] == id';
    }
  }
}
