/** Vocabulary shared by the models: options and a few facts about sequences. */
module Common {

  datatype Option<+T> = None | Some(value: T)

  /** No element occurs twice. */
  ghost predicate NoDup<T>(s: seq<T>) {
    forall i, j :: 0 <= i < j < |s| ==> s[i] != s[j]
  }

  lemma NoDupPrefix<T>(s: seq<T>, t: seq<T>)
    requires s <= t && NoDup(t)
    ensures NoDup(s)
  {
    assert forall i :: 0 <= i < |s| ==> s[i] == t[i];
  }
}
