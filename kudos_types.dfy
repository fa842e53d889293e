/** The closed set of kudos categories and the Kudos record that client and
    server share. */
module KudosTypes {

  /** `KUDOS_CATEGORIES`, in declaration order. */
  const KudosCategories: seq<string> := ["Great Job", "Thank You", "Teamwork"]

  predicate IsKudosCategory(s: string) {
    s in KudosCategories
  }

  /** `KudosCategory`: the strings that are members of `KUDOS_CATEGORIES`. */
  type KudosCategory = s: string | IsKudosCategory(s) witness "Great Job"

  /** A kudos as both ends see it: six fields, the category one of the three
      labels and `createdAt` a timestamp string. */
  datatype Kudos = Kudos(
    id: string,
    senderId: string,
    receiverId: string,
    message: string,
    category: KudosCategory,
    createdAt: string)

  /** There are exactly three categories, in this order. */
  lemma CategoriesInOrder()
    ensures |KudosCategories| == 3
    ensures KudosCategories[0] == "Great Job" && KudosCategories[1] == "Thank You" && KudosCategories[2] == "Teamwork"
  {
  }

  /** No label is listed twice. */
  lemma CategoriesDistinct()
    ensures forall i, j :: 0 <= i < j < |KudosCategories| ==> KudosCategories[i] != KudosCategories[j]
  {
  }

  /** A string is a category exactly when it is one of the three labels. */
  lemma CategoryMembership(s: string)
    ensures IsKudosCategory(s) <==> s == "Great Job" || s == "Thank You" || s == "Teamwork"
  {
  }
}
