/** The application's records (src/types/index.ts) and the identity facts
    about station lists that the store and the views share. */
module Types {
  import opened Wrappers
  import Lists

  /** A station as the application keeps it; `id` is its identity. */
  datatype Station = Station(
    id: string,
    name: string,
    url: string,
    favicon: string,
    country: string,
    language: string,
    tags: seq<string>,
    votes: int,
    codec: string,
    bitrate: int)

  datatype Country = Country(name: string, code: string, stationCount: int)

  datatype Genre = Genre(name: string, stationCount: int)

  /** The optional filters of a directory search. */
  datatype SearchParams = SearchParams(
    name: Option<string>,
    country: Option<string>,
    language: Option<string>,
    tag: Option<string>,
    limit: Option<int>)

  /** `list.some(s => s.id === id)`, scanning from the front. */
  function HasId(list: seq<Station>, id: string): (b: bool)
    ensures b <==> exists i :: 0 <= i < |list| && list[i].id == id
  {
    if list == [] then false
    else if list[0].id == id then true
    else
      var b := HasId(list[1..], id);
      assert b ==> exists i :: 0 <= i < |list| && list[i].id == id by {
        if b {
          var j :| 0 <= j < |list| - 1 && list[1..][j].id == id;
          assert list[j + 1].id == id;
        }
      }
      assert (exists i :: 0 <= i < |list| && list[i].id == id) ==> b by {
        if i :| 0 <= i < |list| && list[i].id == id {
          assert list[1..][i - 1].id == id;
        }
      }
      b
  }

  /** No two entries of `list` share an id. */
  ghost predicate NoDupIds(list: seq<Station>)
  {
    forall i, j :: 0 <= i < j < |list| ==> list[i].id != list[j].id
  }

  /** A subsequence of a list without duplicate ids has none either. */
  lemma {:induction false} SubseqNoDupIds(r: seq<Station>, s: seq<Station>)
    requires Lists.IsSubseq(r, s) && NoDupIds(s)
    ensures NoDupIds(r)
    decreases |s|
  {
    if r != [] {
      if r[0] == s[0] && Lists.IsSubseq(r[1..], s[1..]) {
        SubseqNoDupIds(r[1..], s[1..]);
        Lists.SubseqMembers(r[1..], s[1..]);
        forall j | 0 < j < |r| ensures r[0].id != r[j].id {
          assert r[j] == r[1..][j - 1];
          assert r[j] in s[1..];
          var k :| 0 <= k < |s| - 1 && s[1..][k] == r[j];
          assert s[k + 1] == r[j];
        }
        forall i, j | 0 < i < j < |r| ensures r[i].id != r[j].id {
          assert r[i] == r[1..][i - 1] && r[j] == r[1..][j - 1];
        }
      } else {
        SubseqNoDupIds(r, s[1..]);
      }
    }
  }
}
