/** Searching a text for a marker without regard to the case of its letters. */
module TextSearch {
  /** Letters A to Z match their lower case, every other character itself. */
  predicate MatchesLetter(c: char, lower: char) { if 'A' <= c <= 'Z' then c as int + 32 == lower as int else c == lower }

  predicate MentionsAt(text: string, marker: string, i: nat) {
    i + |marker| <= |text| && forall j :: 0 <= j < |marker| ==> MatchesLetter(text[i + j], marker[j])
  }

  ghost predicate Mentions(text: string, marker: string) {
    exists i {:trigger MentionsAt(text, marker, i)} :: 0 <= i <= |text| && MentionsAt(text, marker, i)
  }
}
