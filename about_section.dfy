/**
 * The about section's team cards: each member's avatar shows the initials of their name,
 * `name.split(' ').map(n => n[0]).join('').slice(0, 2)`, and the cards follow the
 * declared order of the team and supervisor lists.
 */
module AboutSection {
  import JsString

  /** `n[0]` as `join('')` renders it: the first character, or nothing for an empty word (`undefined` joins as ''). */
  function FirstChar(w: string): (r: string)
    ensures |r| <= 1
    ensures w != [] ==> r == [w[0]]
  {
    if w == [] then [] else [w[0]]
  }

  /** `words.map(n => n[0]).join('')`. */
  function Heads(words: seq<string>): string {
    if words == [] then [] else FirstChar(words[0]) + Heads(words[1..])
  }

  /** The initials shown on a member's avatar. */
  function Initials(name: string): (r: string)
    ensures |r| <= 2
    ensures r == JsString.Take(WordStarts(name, true), 2)
  {
    HeadsSplit(name);
    JsString.Take(Heads(JsString.Split(name, ' ')), 2)
  }

  /**
   * Independent reading of the same thing: the characters of `s` that begin a word, i.e. that
   * are not a space and follow a space or the start (`afterSpace` says the character before
   * `s` was a space, or there was none).
   */
  function WordStarts(s: string, afterSpace: bool): (r: string)
    ensures forall c :: c in r ==> c in s && c != ' '
  {
    if s == [] then []
    else (if s[0] != ' ' && afterSpace then [s[0]] else []) + WordStarts(s[1..], s[0] == ' ')
  }

  /** Splitting on spaces and taking each word's first character yields exactly the word-start characters, in order. */
  lemma {:induction false} HeadsSplit(s: string)
    ensures Heads(JsString.Split(s, ' ')) == WordStarts(s, true)
    ensures Heads(JsString.Split(s, ' ')[1..]) == WordStarts(s, false)
  {
    if s == [] {
    } else if s[0] == ' ' {
      HeadsSplit(s[1..]);
      var parts := JsString.Split(s, ' ');
      assert parts == [[]] + JsString.Split(s[1..], ' ');
      assert parts[1..] == JsString.Split(s[1..], ' ');
      assert Heads(parts) == FirstChar(parts[0]) + Heads(parts[1..]);
    } else {
      var rest := JsString.Split(s[1..], ' ');
      HeadsSplit(s[1..]);
      var parts := JsString.Split(s, ' ');
      assert parts == [[s[0]] + rest[0]] + rest[1..];
      assert parts[1..] == rest[1..];
      assert Heads(parts) == FirstChar(parts[0]) + Heads(parts[1..]);
      assert FirstChar(parts[0]) == [s[0]];
    }
  }

  /** Extra spaces contribute nothing: collapsing a double space leaves the initials unchanged. */
  lemma DoubleSpaceIgnored(a: string, b: string)
    ensures Initials(a + "  " + b) == Initials(a + " " + b)
  {
    WordStartsConcat(a, "  " + b, true);
    WordStartsConcat(a, " " + b, true);
    assert (a + "  " + b) == a + ("  " + b);
    assert (a + " " + b) == a + (" " + b);
    assert ("  " + b)[1..] == " " + b;
    assert (" " + b)[1..] == b;
  }

  /** The word starts of a concatenation: those of the first part, then those of the second given how the first part ended. */
  lemma {:induction false} WordStartsConcat(a: string, b: string, afterSpace: bool)
    ensures WordStarts(a + b, afterSpace) ==
      WordStarts(a, afterSpace) + WordStarts(b, if a == [] then afterSpace else a[|a| - 1] == ' ')
  {
    if a != [] {
      assert (a + b)[0] == a[0] && (a + b)[1..] == a[1..] + b;
      WordStartsConcat(a[1..], b, a[0] == ' ');
    } else {
      assert a + b == b;
    }
  }

  datatype TeamMember = TeamMember(name: string, role: string, grade: string)

  const TeamMembers: seq<TeamMember> := [
    TeamMember("Abdul Rahman Rahimi", "President", "Grade 12"),
    TeamMember("Aarush Bansal", "Vice President", "Grade 12"),
    TeamMember("Suyansh Mittal", "Second Vice President & Question Coordinator", "Grade 12"),
    TeamMember("Akankshya Panda", "Communications & Outreach Officer", "Grade 12"),
    TeamMember("Sherry Naem", "Problem / Question Coordinator Assistant", "Grade 12"),
    TeamMember("Hasan Ahmad", "Treasurer / Budget Officer 2", "Grade 12")
  ]

  datatype Supervisor = Supervisor(name: string, department: string)

  const Supervisors: seq<Supervisor> := [
    Supervisor("Ms. Issar", "Mathematics Department"),
    Supervisor("Mr. Kumar", "Mathematics Department")
  ]

  /** One team card: its key (the list index), the avatar initials and the member. */
  datatype TeamCard = TeamCard(key: nat, initials: string, member: TeamMember)

  /** `teamMembers.map((member, index) => ...)`: one card per member, in declared order, keyed by index. */
  function TeamCards(members: seq<TeamMember>): (r: seq<TeamCard>)
    ensures |r| == |members|
    ensures forall i :: 0 <= i < |members| ==>
      r[i].key == i && r[i].member == members[i] && r[i].initials == Initials(members[i].name)
  {
    seq(|members|, i requires 0 <= i < |members| => TeamCard(i, Initials(members[i].name), members[i]))
  }

  /** A name of three space-separated words shows the initials of its first two words only. */
  lemma ThreeWords(a: string, b: string, c: string)
    requires a != [] && b != [] && c != [] && ' ' !in a && ' ' !in b && ' ' !in c
    ensures Initials(a + " " + b + " " + c) == [a[0], b[0]]
  {
    var tail := " " + c;
    var mid := b + tail;
    assert a + " " + b + " " + c == a + (" " + mid);
    WordThenRest(a, " " + mid, true);
    SpaceThenRest(mid, false);
    WordThenRest(b, tail, true);
    SpaceThenRest(c, false);
    WordThenRest(c, [], true);
    assert c + [] == c;
    assert WordStarts(a + " " + b + " " + c, true) == [a[0]] + ([b[0]] + [c[0]]);
  }

  /** A leading space: what follows starts a word. */
  lemma SpaceThenRest(s: string, afterSpace: bool)
    ensures WordStarts(" " + s, afterSpace) == WordStarts(s, true)
  {
    assert (" " + s)[0] == ' ' && (" " + s)[1..] == s;
  }

  /** A spaceless word followed by more text contributes its first character when it starts a word. */
  lemma WordThenRest(w: string, rest: string, afterSpace: bool)
    requires w != [] && ' ' !in w
    ensures WordStarts(w + rest, afterSpace) == (if afterSpace then [w[0]] else []) + WordStarts(rest, false)
  {
    WordStartsConcat(w, rest, afterSpace);
    SpacelessWord(w, afterSpace);
    assert w[|w| - 1] in w;
  }

  /** The president's card: "Abdul Rahman Rahimi" shows "AR". */
  lemma ThreeWordName()
    ensures Initials("Abdul Rahman Rahimi") == "AR"
  {
    assert "Abdul Rahman Rahimi" == "Abdul" + " " + "Rahman" + " " + "Rahimi";
    ThreeWords("Abdul", "Rahman", "Rahimi");
  }

  /** A word without spaces contributes its first character exactly when it follows a space or the start. */
  lemma {:induction false} SpacelessWord(w: string, afterSpace: bool)
    requires w != [] && ' ' !in w
    ensures WordStarts(w, afterSpace) == if afterSpace then [w[0]] else []
  {
    if |w| > 1 {
      assert ' ' !in w[1..] by {
        forall c | c in w[1..] ensures c != ' ' {
          assert c in w;
        }
      }
      SpacelessWord(w[1..], false);
    } else {
      assert w[1..] == [];
    }
  }
}
