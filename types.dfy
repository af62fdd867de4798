/** The records the site's components are rendered from (src/types/index.ts). */
module Types {

  datatype Option<+T> = None | Some(value: T)

  /** JavaScript truthiness of an optional string field: present and not empty. */
  predicate Truthy(o: Option<string>) {
    o.Some? && o.value != ""
  }

  /** The contact block of the profile; every field is optional. */
  datatype Contacts = Contacts(
    email: Option<string>,
    phone: Option<string>,
    telegram: Option<string>,
    github: Option<string>,
    linkedin: Option<string>)

  /** `Project.type` is exactly one of the two literals "hobby" and "personal". */
  datatype ProjectType = Hobby | Personal

  datatype Project = Project(
    title: string,
    description: string,
    kind: ProjectType,
    link: Option<string>,
    technologies: seq<string>,
    image: Option<string>)

  datatype ChangelogTask = ChangelogTask(title: string, description: string, category: Option<string>)

  /** `week` is the "YYYY-MM-DD" date the week starts on. */
  datatype ChangelogEntry = ChangelogEntry(week: string, tasks: seq<ChangelogTask>)

  /** `a` is `b` with some elements dropped and the rest kept in their order. */
  predicate IsSubsequence<T(==)>(a: seq<T>, b: seq<T>)
    decreases |b|
  {
    if a == [] then true
    else if b == [] then false
    else if a[0] == b[0] then IsSubsequence(a[1..], b[1..])
    else IsSubsequence(a, b[1..])
  }

  lemma {:induction false} SubsequenceReflexive<T>(s: seq<T>)
    ensures IsSubsequence(s, s)
  {
    if s != [] {
      SubsequenceReflexive(s[1..]);
    }
  }

  /** Every element of a subsequence is an element of the whole. */
  lemma {:induction false} SubsequenceMembers<T>(a: seq<T>, b: seq<T>)
    requires IsSubsequence(a, b)
    ensures forall x :: x in a ==> x in b
    decreases |b|
  {
    if a != [] {
      if a[0] == b[0] {
        SubsequenceMembers(a[1..], b[1..]);
        forall x | x in a ensures x in b {
          if x != a[0] {
            assert x in a[1..];
          }
        }
      } else {
        SubsequenceMembers(a, b[1..]);
      }
    }
  }
}
