/** Finding approved gates that still wait for execution, and the marker that is meant to end the wait. */
module ResolvedDiscovery {
  import opened Text
  import GateFiles
  import Telegram

  /** What discovery reads of a resolved gate's file; `chosen` is "" when no option is recorded. */
  datatype GateFile = NotJson | GateFile(resolved: bool, chosen: string, owner: string)

  /** Where the suffix of a file name starts: its last dot, unless that is its first or last character. */
  function SuffixStart(name: string, i: nat): nat
    requires i <= |name|
    ensures SuffixStart(name, i) <= |name|
    decreases i
  {
    if i == 0 then |name|
    else if name[i - 1] == '.' then (if 0 < i - 1 && i < |name| then i - 1 else |name|)
    else SuffixStart(name, i - 1)
  }

  function WithSuffix(name: string, suffix: string): string {
    name[..SuffixStart(name, |name|)] + suffix
  }

  /** The marker that discovery looks for, and that it writes for gates not approved. */
  function SoughtMarker(name: string): string {
    WithSuffix(name, ".dispatched")
  }

  /** The marker that the daemon writes when it has executed an approved gate. */
  function WrittenMarker(name: string): string {
    name + ".dispatched"
  }

  /** The files discovery looks at: `proposal_*.json`. */
  predicate IsProposalFile(name: string) {
    HasJsonSuffix(name) && GateFiles.IsProposal(name[..|name| - 5])
  }

  // ----- the two markers

  lemma {:induction false} SuffixOfJson(name: string, i: nat)
    requires |name| > 5 && EndsWith(name, ".json") && |name| - 4 <= i <= |name|
    ensures SuffixStart(name, i) == |name| - 5
  {
    var json := name[|name| - 5..];
    assert name[|name| - 5] == json[0] == '.';
    assert forall k :: 1 <= k < 5 ==> name[|name| - 5 + k] == json[k] != '.';
    if i > |name| - 4 {
      SuffixOfJson(name, i - 1);
    }
  }

  lemma {:induction false} SuffixDown(name: string, dot: nat, i: nat)
    requires dot < i <= |name| && name[dot] == '.' && forall k :: dot < k < i ==> name[k] != '.'
    ensures SuffixStart(name, i) == SuffixStart(name, dot + 1)
  {
    if i > dot + 1 {
      SuffixDown(name, dot, i - 1);
    }
  }

  lemma {:induction false} NoSuffix(name: string, i: nat)
    requires i <= |name| && forall k :: 0 <= k < i ==> name[k] != '.'
    ensures SuffixStart(name, i) == |name|
  {
    if i > 0 {
      NoSuffix(name, i - 1);
    }
  }

  /** A suffix is what follows the last dot, if there is something in front of the dot and something after it. */
  lemma SuffixExactly(stem: string, ext: string)
    requires '.' !in ext
    ensures WithSuffix(stem + "." + ext, ".dispatched")
            == if stem != "" && ext != "" then stem + ".dispatched" else stem + "." + ext + ".dispatched"
    ensures WithSuffix(ext, ".dispatched") == ext + ".dispatched"
  {
    var name := stem + "." + ext;
    assert name[|stem|] == '.' && name[..|stem|] == stem && name[..|name|] == name;
    forall k | |stem| < k < |name| ensures name[k] != '.' {
      assert name[k] == ext[k - |stem| - 1];
    }
    SuffixDown(name, |stem|, |name|);
    NoSuffix(ext, |ext|);
    assert ext[..|ext|] == ext;
  }

  /** The written marker is the sought one exactly for names without a suffix. */
  lemma MarkersAgree(name: string)
    ensures WrittenMarker(name) == SoughtMarker(name)
            <==> !exists stem, ext :: stem != "" && ext != "" && '.' !in ext && name == stem + "." + ext
  {
    if stem, ext :| stem != "" && ext != "" && '.' !in ext && name == stem + "." + ext {
      SuffixExactly(stem, ext);
      assert |SoughtMarker(name)| < |WrittenMarker(name)|;
    } else if '.' in name {
      var dot := LastDot(name, |name|);
      var stem, ext := name[..dot], name[dot + 1..];
      assert name == stem + "." + ext;
      SuffixExactly(stem, ext);
    } else {
      SuffixExactly("", name);
    }
  }

  function LastDot(name: string, i: nat): (dot: nat)
    requires i <= |name| && '.' in name[..i]
    ensures dot < i && name[dot] == '.' && forall k :: dot < k < i ==> name[k] != '.'
  {
    if name[i - 1] == '.' then i - 1
    else
      assert name[..i] == name[..i - 1] + [name[i - 1]];
      LastDot(name, i - 1)
  }

  /** The files that discovery looks at. */
  lemma ProposalFileExactly(name: string)
    ensures IsProposalFile(name) <==> exists middle :: name == "proposal_" + middle + ".json"
  {
    if IsProposalFile(name) {
      var stem := name[..|name| - 5];
      assert name == "proposal_" + stem[9..] + ".json";
    }
    if middle :| name == "proposal_" + middle + ".json" {
      assert name[..|name| - 5] == "proposal_" + middle && name[|name| - 5..] == ".json";
      assert GateFiles.IsProposal("proposal_" + middle);
    }
  }

  /** Executing gate `p` hides gate `q` from discovery exactly when `q` is the file `p.json`, so never `p` itself. */
  lemma HiddenExactly(p: string, q: string)
    requires IsProposalFile(q)
    ensures WrittenMarker(p) == SoughtMarker(q) <==> q == p + ".json"
  {
    SuffixOfJson(q, |q|);
    var stem, mark := q[..|q| - 5], ".dispatched";
    assert q == stem + ".json";
    if p + mark == stem + mark {
      assert |p| == |stem|;
      assert p == (p + mark)[..|p|] == (stem + mark)[..|p|] == stem;
    }
    if q == p + ".json" {
      assert stem == p;
    }
  }

  // ----- discovery

  predicate Pending(name: string, files: map<string, GateFile>, names: set<string>) {
    SoughtMarker(name) !in names && name in files && files[name].GateFile? && files[name].resolved
  }

  predicate IsRefused(name: string, files: map<string, GateFile>, names: set<string>) {
    Pending(name, files, names) && files[name].chosen != "approve"
  }

  predicate Offered(name: string, files: map<string, GateFile>, names: set<string>, owner: Option<string>) {
    && Pending(name, files, names) && files[name].chosen == "approve"
    && (owner.None? || owner.value == "" || files[name].owner == owner.value)
  }

  function Found(listing: seq<string>, files: map<string, GateFile>, names: set<string>,
          owner: Option<string>): seq<string> {
    if listing == [] then []
    else
      (if Offered(listing[0], files, names, owner) then [listing[0]] else [])
      + Found(listing[1..], files, names, owner)
  }

  /** The markers of the gates that were answered, but not with an approval. */
  function Refused(listing: seq<string>, files: map<string, GateFile>, names: set<string>): set<string> {
    if listing == [] then {}
    else
      (if IsRefused(listing[0], files, names) then {SoughtMarker(listing[0])} else {})
      + Refused(listing[1..], files, names)
  }

  /** Distinct proposals, newest first. */
  predicate Listing(listing: seq<string>) {
    && (forall i :: 0 <= i < |listing| ==> IsProposalFile(listing[i]))
    && (forall i, j :: 0 <= i < j < |listing| ==> listing[i] != listing[j])
  }

  lemma SoughtInjective(p: string, q: string)
    requires IsProposalFile(p) && IsProposalFile(q) && SoughtMarker(p) == SoughtMarker(q)
    ensures p == q
  {
    SuffixOfJson(p, |p|);
    SuffixOfJson(q, |q|);
    var a, b, mark := p[..|p| - 5], q[..|q| - 5], ".dispatched";
    assert |a| == |b|;
    assert a == (a + mark)[..|a|] == (b + mark)[..|a|] == b;
    assert p == a + ".json" && q == b + ".json";
  }

  lemma {:induction false} FoundExactly(listing: seq<string>, files: map<string, GateFile>, names: set<string>,
          owner: Option<string>)
    ensures forall p :: p in Found(listing, files, names, owner) <==> p in listing && Offered(p, files, names, owner)
  {
    hide Offered;
    if listing != [] {
      FoundExactly(listing[1..], files, names, owner);
      assert listing == [listing[0]] + listing[1..];
    }
  }

  /**
   What is found, read off the files: the approved gates of the owner, if one is asked for, whose name with
   `.dispatched` in place of `.json` is not the name of a file.
   */
  lemma FoundInFields(listing: seq<string>, files: map<string, GateFile>, names: set<string>, owner: Option<string>,
                      p: string)
    requires Listing(listing) && p in listing
    ensures p in Found(listing, files, names, owner) <==>
            && p[..|p| - 5] + ".dispatched" !in names
            && exists o :: p in files && files[p] == GateFile(true, "approve", o) && owner in [None, Some(""), Some(o)]
  {
    hide Found;
    FoundExactly(listing, files, names, owner);
    assert IsProposalFile(p);
    SuffixOfJson(p, |p|);
    if p in files && files[p].GateFile? {
      var o := files[p].owner;
      assert owner in [None, Some(""), Some(o)] <==> owner == None || owner == Some("") || owner == Some(o);
      assert files[p] == GateFile(true, "approve", o) <==> files[p].resolved && files[p].chosen == "approve";
    }
  }

  /** Names that no listed gate looks for make no difference. */
  lemma {:induction false} FoundIgnores(listing: seq<string>, files: map<string, GateFile>, names: set<string>,
          more: set<string>, owner: Option<string>)
    requires forall i :: 0 <= i < |listing| ==> SoughtMarker(listing[i]) !in more
    ensures Found(listing, files, names + more, owner) == Found(listing, files, names, owner)
  {
    hide SoughtMarker;
    if listing != [] {
      FoundIgnores(listing[1..], files, names, more, owner);
    }
  }

  /** The names that executing the given gates leaves behind. */
  function Marks(executed: seq<string>): set<string> {
    set i | 0 <= i < |executed| :: WrittenMarker(executed[i])
  }

  /**
   However often gates have been executed and marked, discovery still offers the very same gates, as
   long as no listed gate is called `p.json` after an executed `p`.
   */
  lemma MarkingHidesNothing(listing: seq<string>, files: map<string, GateFile>, names: set<string>,
          owner: Option<string>, executed: seq<string>)
    requires Listing(listing)
    requires forall i, j :: 0 <= i < |listing| && 0 <= j < |executed| ==> listing[i] != executed[j] + ".json"
    ensures Found(listing, files, names + Marks(executed), owner) == Found(listing, files, names, owner)
  {
    hide SoughtMarker, WrittenMarker, IsProposalFile;
    forall i, j | 0 <= i < |listing| && 0 <= j < |executed|
      ensures SoughtMarker(listing[i]) != WrittenMarker(executed[j])
    {
      assert IsProposalFile(listing[i]);
      HiddenExactly(executed[j], listing[i]);
    }
    FoundIgnores(listing, files, names, Marks(executed), owner);
  }

  /** In particular an executed gate is offered again. */
  lemma ExecutedIsOfferedAgain(name: string, files: map<string, GateFile>, names: set<string>, owner: Option<string>)
    requires IsProposalFile(name) && Offered(name, files, names, owner)
    ensures Offered(name, files, names + {WrittenMarker(name)}, owner)
  {
    HiddenExactly(name, name);
    assert |name + ".json"| > |name|;
  }

  lemma {:induction false} RefusedExactly(listing: seq<string>, files: map<string, GateFile>, names: set<string>,
          mark: string)
    ensures mark in Refused(listing, files, names)
            <==> exists i ::
                   0 <= i < |listing| && IsRefused(listing[i], files, names) && mark == SoughtMarker(listing[i])
  {
    hide SoughtMarker, Pending;
    if listing != [] {
      RefusedExactly(listing[1..], files, names, mark);
      assert forall i :: 0 < i < |listing| ==> listing[i] == listing[1..][i - 1];
      if IsRefused(listing[0], files, names) && mark == SoughtMarker(listing[0]) {
        assert mark in Refused(listing, files, names);
      } else if mark in Refused(listing, files, names) {
        var i :| 0 <= i < |listing[1..]| && IsRefused(listing[1..][i], files, names)
          && mark == SoughtMarker(listing[1..][i]);
        assert IsRefused(listing[i + 1], files, names);
      }
    }
  }

  lemma {:induction false} SameOffers(listing: seq<string>, files: map<string, GateFile>, names: set<string>,
          names': set<string>, owner: Option<string>)
    requires forall i :: 0 <= i < |listing| ==>
             Offered(listing[i], files, names', owner) == Offered(listing[i], files, names, owner)
    requires forall i :: 0 <= i < |listing| ==> !IsRefused(listing[i], files, names')
    ensures Found(listing, files, names', owner) == Found(listing, files, names, owner)
    ensures Refused(listing, files, names') == {}
  {
    hide Offered, Pending;
    if listing != [] {
      assert Offered(listing[0], files, names', owner) == Offered(listing[0], files, names, owner);
      assert !IsRefused(listing[0], files, names');
      SameOffers(listing[1..], files, names, names', owner);
    }
  }

  /** A second look offers the same gates and marks nothing more: each refusal is marked once. */
  lemma LookingAgain(listing: seq<string>, files: map<string, GateFile>, names: set<string>, owner: Option<string>)
    requires Listing(listing)
    ensures var names' := names + Refused(listing, files, names);
            Found(listing, files, names', owner) == Found(listing, files, names, owner)
              && Refused(listing, files, names') == {}
  {
    hide SoughtMarker, IsProposalFile, Refused;
    var names' := names + Refused(listing, files, names);
    forall i | 0 <= i < |listing|
      ensures Offered(listing[i], files, names', owner) == Offered(listing[i], files, names, owner)
      ensures !IsRefused(listing[i], files, names')
    {
      var mark := SoughtMarker(listing[i]);
      RefusedExactly(listing, files, names, mark);
      if mark in Refused(listing, files, names) {
        var k :| 0 <= k < |listing| && IsRefused(listing[k], files, names) && mark == SoughtMarker(listing[k]);
        assert IsProposalFile(listing[i]) && IsProposalFile(listing[k]);
        SoughtInjective(listing[i], listing[k]);
      }
    }
    SameOffers(listing, files, names, names', owner);
  }

  // ----- two readers of one answer

  /** The daemon waiting on the gate takes this text for an approval. */
  predicate ReadsAsApproval(chosen: string) {
    Telegram.FieldOf(chosen) == GateFiles.Known(GateFiles.Approve)
  }

  /**
   The waiting daemon and discovery agree on an answered gate, one taking it for approved and the other
   not refusing it, exactly if its text is "approve" or is not "approve" in any case.
   */
  lemma ReadersAgreeExactly(name: string, files: map<string, GateFile>, names: set<string>)
    requires Pending(name, files, names)
    ensures var chosen := files[name].chosen;
            (ReadsAsApproval(chosen) <==> !IsRefused(name, files, names))
            <==> chosen == "approve" || ToLower(chosen) != "approve"
  {
    assert ToLower("approve") == "approve";
  }

  /** An approval in capitals, as an app surface may store it, is refused by discovery for good. */
  lemma CapitalApprovalRefused(name: string, files: map<string, GateFile>, names: set<string>)
    requires Pending(name, files, names) && files[name].chosen == "APPROVE"
    ensures ReadsAsApproval(files[name].chosen)
    ensures IsRefused(name, files, names) && !Pending(name, files, names + Refused([name], files, names))
  {
    assert ToLower("APPROVE") == "approve";
    assert "APPROVE"[0] != "approve"[0];
    assert [name][1..] == [];
  }

  class ResolvedDirectory {
    /** The gates, and the names of all files including the markers. */
    var files: map<string, GateFile>
    var names: set<string>

    /** `listing` holds the proposals newest first, of which `maxPerSource` are looked at. */
    method Discover(listing: seq<string>, owner: Option<string>, maxPerSource: nat) returns (out: seq<string>)
      requires Listing(listing)
      modifies this`names
      ensures var looked := if maxPerSource < |listing| then listing[..maxPerSource] else listing;
              && out == Found(looked, files, old(names), owner)
              && names == old(names) + Refused(looked, files, old(names))
    {
      hide SoughtMarker, Listing, Found, Refused, Offered, IsRefused;
      var looked := if maxPerSource < |listing| then listing[..maxPerSource] else listing;
      assert Listing(looked) by { ListingPrefix(listing, maxPerSource); }
      NothingLooked(looked, files, names, owner);
      out := [];
      ghost var found := Found(looked, files, names, owner);
      ghost var marks := names + Refused(looked, files, names);
      for i := 0 to |looked|
        invariant found == out + Found(looked[i..], files, old(names), owner)
        invariant marks == names + Refused(looked[i..], files, old(names))
        invariant forall k :: i <= k < |looked| ==>
                  (SoughtMarker(looked[k]) in names <==> SoughtMarker(looked[k]) in old(names))
      {
        var path := looked[i];
        LookedNext(looked, i, files, old(names), owner);
        LookAt(path, files, old(names), names, owner);
        if SoughtMarker(path) !in names && path in files {
          var data := files[path];
          match data
          case NotJson =>
          case GateFile(resolved, chosen, gateOwner) =>
            if resolved {
              if chosen != "approve" {
                NoSharedMarker(looked, i);
                names := names + {SoughtMarker(path)};
              } else if owner.None? || owner.value == "" || gateOwner == owner.value {
                out := out + [path];
              }
            }
        }
      }
    }

    /** After dispatching a gate that was offered. */
    method MarkDispatched(path: string)
      modifies this`names
      ensures names == old(names) + {path + ".dispatched"} == old(names) + Marks([path])
    {
      names := names + {WrittenMarker(path)};
      assert Marks([path]) == {WrittenMarker(path)} by {
        assert WrittenMarker([path][0]) in Marks([path]);
      }
    }
  }

  lemma ListingPrefix(listing: seq<string>, n: nat)
    requires Listing(listing)
    ensures n < |listing| ==> Listing(listing[..n])
  {}

  lemma NothingLooked(looked: seq<string>, files: map<string, GateFile>, names: set<string>, owner: Option<string>)
    ensures looked[0..] == looked
    ensures Found(looked[|looked|..], files, names, owner) == [] && Refused(looked[|looked|..], files, names) == {}
  {}

  /** What becomes of a gate, in the order of the questions asked about it. */
  lemma LookAt(path: string, files: map<string, GateFile>, names: set<string>, names': set<string>,
               owner: Option<string>)
    requires SoughtMarker(path) in names' <==> SoughtMarker(path) in names
    ensures var closed :=
              SoughtMarker(path) !in names' && path in files && files[path].GateFile? && files[path].resolved;
            && (IsRefused(path, files, names) <==> closed && files[path].chosen != "approve")
            && (Offered(path, files, names, owner) <==>
                closed && files[path].chosen == "approve"
                && (owner.None? || owner.value == "" || files[path].owner == owner.value))
  {}

  lemma LookedNext(looked: seq<string>, i: nat, files: map<string, GateFile>, names: set<string>, owner: Option<string>)
    requires i < |looked|
    ensures Found(looked[i..], files, names, owner)
            == (if Offered(looked[i], files, names, owner) then [looked[i]] else [])
              + Found(looked[i + 1..], files, names, owner)
    ensures Refused(looked[i..], files, names)
            == (if IsRefused(looked[i], files, names) then {SoughtMarker(looked[i])} else {})
               + Refused(looked[i + 1..], files, names)
  {
    assert looked[i..][1..] == looked[i + 1..];
  }

  lemma NoSharedMarker(looked: seq<string>, i: nat)
    requires Listing(looked) && i < |looked|
    ensures forall k :: i < k < |looked| ==> SoughtMarker(looked[k]) != SoughtMarker(looked[i])
  {
    hide SoughtMarker, IsProposalFile;
    forall k | i < k < |looked| ensures SoughtMarker(looked[k]) != SoughtMarker(looked[i]) {
      if SoughtMarker(looked[k]) == SoughtMarker(looked[i]) {
        SoughtInjective(looked[i], looked[k]);
      }
    }
  }
}
