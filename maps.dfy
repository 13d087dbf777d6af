/** Maps that only gain entries, as the memo maps of the program do. */
module Maps {

  /** m1 keeps every entry of m0. */
  ghost predicate Grows<K, V>(m0: map<K, V>, m1: map<K, V>)
  {
    forall k :: k in m0 ==> k in m1 && m1[k] == m0[k]
  }

  lemma GrowsTrans<K, V>(m0: map<K, V>, m1: map<K, V>, m2: map<K, V>)
    requires Grows(m0, m1) && Grows(m1, m2)
    ensures Grows(m0, m2)
  {
  }
}
