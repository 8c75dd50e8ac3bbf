/** Revoked tokens: a set of identifiers in memory and a text file with one of them per line. */
module Revocation {
  import opened Wrappers
  import opened Text
  import opened Hex

  type Id = seq<byte>

  /** The hexadecimal lines of identifiers. */
  function HexLines(ids: seq<Id>): (lines: seq<string>)
    ensures |lines| == |ids| && forall i | 0 <= i < |ids| :: lines[i] == Encoded(ids[i])
  {
    if ids == [] then [] else [Encoded(ids[0])] + HexLines(ids[1..])
  }

  /** The file body for identifiers written in a given order. */
  function Body(ids: seq<Id>): string {
    Terminated(HexLines(ids))
  }

  /** What loading makes of lines: blank lines and comments are skipped, anything else must be hexadecimal. */
  function Loaded(lines: seq<string>): Option<set<Id>> {
    if lines == [] then Some({})
    else
      var k := |lines| - 1;
      var s := Trim(lines[k]);
      match Loaded(lines[..k])
      case None => None
      case Some(ids) =>
        if s == "" || s[0] == '#' then Some(ids)
        else if Decoded(s).None? then None
        else Some(ids + {Decoded(s).value})
  }

  function LoadedFile(file: Option<string>): Option<set<Id>> {
    Loaded(if file.None? then [] else Lines(file.value))
  }

  /** An order in which a set is iterated. */
  ghost predicate Enumerates(order: seq<Id>, ids: set<Id>) {
    (forall id :: id in order <==> id in ids) && forall i, j | 0 <= i < j < |order| :: order[i] != order[j]
  }

  /** The identifiers of a list. */
  function SetOf(ids: seq<Id>): set<Id> {
    set id | id in ids
  }

  function NonEmpty(ids: set<Id>): set<Id> {
    ids - {[]}
  }

  class AuthState {
    var revoked: set<Id>
    var file: Option<string>

    constructor ()
      ensures revoked == {} && file == None
    {
      revoked, file := {}, None;
    }

    /** Revokes in memory, then replaces the file unless writing fails. */
    method RevokeToken(ids: seq<Id>, writes: bool) returns (ok: bool)
      modifies this
      ensures ok == writes && revoked == old(revoked) + SetOf(ids)
      ensures ok ==> exists order :: Enumerates(order, revoked) && file == Some(Body(order))
      ensures !ok ==> file == old(file)
    {
      var i := 0;
      while i < |ids|
        invariant 0 <= i <= |ids| && revoked == old(revoked) + SetOf(ids[..i]) && file == old(file)
      {
        revoked := revoked + {ids[i]};
        assert ids[..i + 1] == ids[..i] + [ids[i]];
        i := i + 1;
      }
      assert ids[..|ids|] == ids;
      var updated := "";
      ghost var order: seq<Id> := [];
      var todo := revoked;
      while todo != {}
        invariant todo <= revoked && Enumerates(order, revoked - todo) && updated == Body(order)
        invariant revoked == old(revoked) + SetOf(ids) && file == old(file)
      {
        var id :| id in todo;
        var hex := HexStr(id);
        BodyAppend(order, id);
        updated := updated + hex + "\n";
        order := order + [id];
        todo := todo - {id};
      }
      assert Enumerates(order, revoked);
      if !writes {
        return false;
      }
      file := Some(updated);
      return true;
    }

    method IsTokenRevoked(ids: seq<Id>) returns (r: bool)
      ensures r <==> exists id :: id in ids && id in revoked
    {
      r := !(SetOf(ids) !! revoked);
    }

    method LoadRevokedTokens() returns (r: Option<set<Id>>)
      ensures r == LoadedFile(file)
    {
      if file.None? {
        return Some({});
      }
      var ids: set<Id> := {};
      var lines := Lines(file.value);
      var i := 0;
      while i < |lines|
        invariant 0 <= i <= |lines| && Loaded(lines[..i]) == Some(ids)
      {
        var s := Trim(lines[i]);
        assert lines[..i + 1][..i] == lines[..i];
        i := i + 1;
        if s == "" || s[0] == '#' {
          continue;
        }
        var id := HexStrToVec(s);
        if id.None? {
          FailureStays(lines, i);
          return None;
        }
        ids := ids + {id.value};
      }
      assert lines[..|lines|] == lines;
      return Some(ids);
    }
  }

  lemma {:induction false} FailureStays(lines: seq<string>, i: nat)
    requires i <= |lines| && Loaded(lines[..i]).None?
    ensures Loaded(lines).None?
    decreases |lines|
  {
    if i == |lines| {
      assert lines[..i] == lines;
    } else {
      assert lines[..|lines| - 1][..i] == lines[..i];
      FailureStays(lines[..|lines| - 1], i);
    }
  }

  lemma {:induction false} BodyAppend(ids: seq<Id>, id: Id)
    ensures Body(ids + [id]) == Body(ids) + Encoded(id) + "\n"
    ensures HexLines(ids + [id]) == HexLines(ids) + [Encoded(id)]
  {
    if ids == [] {
      assert Encoded(id) + "\n" + "" == "" + Encoded(id) + "\n";
    } else {
      BodyAppend(ids[1..], id);
      assert (ids + [id])[1..] == ids[1..] + [id];
      assert HexLines(ids + [id])[1..] == HexLines(ids[1..] + [id]);
      assert HexLines(ids)[1..] == HexLines(ids[1..]);
      assert Encoded(ids[0]) + "\n" + (Body(ids[1..]) + Encoded(id) + "\n")
          == Encoded(ids[0]) + "\n" + Body(ids[1..]) + Encoded(id) + "\n";
    }
  }

  predicate IsHexChar(c: char) {
    '0' <= c <= '9' || 'a' <= c <= 'f'
  }

  /** A line of hexadecimal characters is plain, no comment, and trims to itself. */
  lemma HexCharsStay(line: string)
    requires forall c | c in line :: IsHexChar(c)
    ensures line == "" || (IsPlainLine(line) && line[0] != '#')
    ensures Trim(line) == line
  {
    if line != "" {
      assert line[0] in line && line[|line| - 1] in line;
      assert forall c | c in line :: c != '\n' by {
        forall c | c in line ensures c != '\n' { assert IsHexChar(c); }
      }
      TrimKeeps(line);
    }
  }

  lemma HexLineStays(id: Id)
    ensures var line := Encoded(id);
            && (id == [] <==> line == "") && (line == "" || (IsPlainLine(line) && line[0] != '#')) && Trim(line) == line
  {
    HexCharsStay(Encoded(id));
  }

  lemma HexLinesArePlain(ids: seq<Id>)
    ensures forall l | l in HexLines(ids) :: l == "" || IsPlainLine(l)
  {
    forall i | 0 <= i < |ids| ensures HexLines(ids)[i] == "" || IsPlainLine(HexLines(ids)[i]) {
      HexLineStays(ids[i]);
    }
  }

  lemma {:induction false} LoadedHexLines(ids: seq<Id>)
    ensures Loaded(HexLines(ids)) == Some(NonEmpty(SetOf(ids)))
    decreases |ids|
  {
    if ids == [] {
      assert NonEmpty(SetOf(ids)) == {};
    } else {
      var k := |ids| - 1;
      LoadedHexLines(ids[..k]);
      BodyAppend(ids[..k], ids[k]);
      HexLineStays(ids[k]);
      DecodedEncoded(ids[k]);
      assert ids == ids[..k] + [ids[k]];
      LoadedLine(HexLines(ids[..k]), Encoded(ids[k]), ids[k]);
      NonEmptyOfLast(ids);
    }
  }

  lemma NonEmptyOfLast(ids: seq<Id>)
    requires ids != []
    ensures var k := |ids| - 1;
            NonEmpty(SetOf(ids)) == NonEmpty(SetOf(ids[..k])) + if ids[k] == [] then {} else {ids[k]}
  {
    var k := |ids| - 1;
    assert SetOf(ids) == SetOf(ids[..k]) + {ids[k]} by {
      assert ids == ids[..k] + [ids[k]];
    }
  }

  /** One more line, blank or hexadecimal, loads as one more identifier or none. */
  lemma LoadedLine(lines: seq<string>, line: string, id: Id)
    requires Loaded(lines).Some? && Trim(line) == line
    requires line == "" || (line[0] != '#' && Decoded(line) == Some(id))
    ensures Loaded(lines + [line]) == Some(Loaded(lines).value + if line == "" then {} else {id})
  {
    assert (lines + [line])[..|lines|] == lines;
    assert Loaded(lines).value + {} == Loaded(lines).value;
  }

  /** Writing identifiers in any order and loading them gives back all but the empty one. */
  lemma LoadInvertsBody(order: seq<Id>)
    ensures LoadedFile(Some(Body(order))) == Some(NonEmpty(SetOf(order)))
  {
    LoadedHexLines(order);
    HexLinesArePlain(order);
    LinesOfTerminated(HexLines(order));
  }

  // Runs of successful revocations and restarts.

  datatype Auth = Auth(revoked: set<Id>, file: Option<string>)

  datatype Step = Revoke(ids: seq<Id>, order: seq<Id>) | Restart

  ghost predicate Enabled(a: Auth, step: Step) {
    match step
    case Revoke(ids, order) => Enumerates(order, a.revoked + SetOf(ids))
    case Restart => LoadedFile(a.file).Some?
  }

  ghost function Apply(a: Auth, step: Step): Auth
    requires Enabled(a, step)
  {
    match step
    case Revoke(ids, order) => Auth(a.revoked + SetOf(ids), Some(Body(order)))
    case Restart => a.(revoked := LoadedFile(a.file).value)
  }

  ghost function Run(steps: seq<Step>): Option<Auth> {
    if steps == [] then Some(Auth({}, None))
    else
      match Run(steps[..|steps| - 1])
      case None => None
      case Some(a) => if Enabled(a, steps[|steps| - 1]) then Some(Apply(a, steps[|steps| - 1])) else None
  }

  /** Every identifier revoked in a run. */
  function Revoked(steps: seq<Step>): set<Id> {
    if steps == [] then {}
    else
      var last := steps[|steps| - 1];
      Revoked(steps[..|steps| - 1]) + if last.Revoke? then SetOf(last.ids) else {}
  }

  lemma NonEmptyOfUnion(a: set<Id>, b: set<Id>)
    ensures NonEmpty(a + b) == NonEmpty(a) + NonEmpty(b)
  {
  }

  /**
   * Over every run, whatever order the set is iterated in: the file loads, to exactly the
   * non-empty identifiers revoked so far, and so does the memory hold them; so every token
   * that shares a non-empty identifier with a revoked one is refused, before and after a
   * restart.
   */
  lemma {:induction false} RevocationsLast(steps: seq<Step>)
    requires Run(steps).Some?
    ensures var a := Run(steps).value;
            && LoadedFile(a.file) == Some(NonEmpty(Revoked(steps)))
            && NonEmpty(a.revoked) == NonEmpty(Revoked(steps))
            && (steps != [] && steps[|steps| - 1].Restart? ==> a.revoked == NonEmpty(Revoked(steps)))
            && forall token: seq<Id>, id | id in token && id != [] && id in Revoked(steps) ::
                 !(SetOf(token) !! a.revoked)
  {
    if steps == [] {
      assert NonEmpty(Revoked(steps)) == {} && Loaded([]) == Some({});
    } else {
      RevocationsLast(steps[..|steps| - 1]);
      var last := steps[|steps| - 1];
      if last.Revoke? {
        LoadInvertsBody(last.order);
        var before := Run(steps[..|steps| - 1]).value.revoked;
        assert SetOf(last.order) == before + SetOf(last.ids);
        NonEmptyOfUnion(before, SetOf(last.ids));
        NonEmptyOfUnion(Revoked(steps[..|steps| - 1]), SetOf(last.ids));
        assert Run(steps).value.file == Some(Body(last.order));
      } else {
        assert Revoked(steps) == Revoked(steps[..|steps| - 1]);
        assert Run(steps).value.file == Run(steps[..|steps| - 1]).value.file;
      }
    }
    forall token: seq<Id>, id | id in token && id != [] && id in Revoked(steps)
      ensures !(SetOf(token) !! Run(steps).value.revoked)
    {
      assert id in NonEmpty(Revoked(steps));
      assert id in SetOf(token) && id in Run(steps).value.revoked;
    }
  }

  // Any file, also one that was written by hand.

  /** A blank line or a comment, white space at its ends aside. */
  predicate IsSkipped(line: string) {
    Trim(line) == "" || Trim(line)[0] == '#'
  }

  /**
   * Lines load exactly if each of them is blank, a comment or hexadecimal; they load as the
   * identifiers of the hexadecimal ones.
   */
  lemma {:induction false} LoadedIff(lines: seq<string>, id: Id)
    ensures Loaded(lines).Some? <==> forall l | l in lines :: IsSkipped(l) || AllDigits(Trim(l))
    ensures Loaded(lines).Some? ==>
              (id in Loaded(lines).value <==> exists l | l in lines :: !IsSkipped(l) && Decoded(Trim(l)) == Some(id))
  {
    if lines != [] {
      var k := |lines| - 1;
      LoadedIff(lines[..k], id);
      assert forall l :: l in lines <==> l in lines[..k] || l == lines[k];
    }
  }
}
