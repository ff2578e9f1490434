/** The JPA attribute converter between a `List<String>` entity attribute and a `String[]` column.
    Both sides may be null; a Java array and a Java list are both modelled as a sequence. The element
    type is a parameter: the converter never looks at the elements (they may themselves be null).
 */
module StringListConverter {
  import opened Wrappers

  /** `convertToDatabaseColumn`: a null or empty list becomes the empty array, any other list the array
      of the same elements in the same order. Never null. */
  function ToDatabaseColumn<T>(list: Option<seq<T>>): (column: seq<T>)
    ensures list.None? ==> column == []
    ensures list.Some? ==> column == list.value
  {
    if list.None? || list.value == [] then [] else list.value
  }

  /** `convertToEntityAttribute`: a null or empty array becomes null, not an empty list; any other
      array the list of the same elements in the same order. */
  function ToEntityAttribute<T>(column: Option<seq<T>>): (list: Option<seq<T>>)
    ensures list.None? <==> column.None? || column.value == []
    ensures list.Some? ==> list.value == column.value
  {
    if column.None? || column.value == [] then None else Some(column.value)
  }

  /** A non-empty list survives the trip to the column and back. */
  lemma EntityRoundTrip<T>(l: seq<T>)
    requires l != []
    ensures ToEntityAttribute(Some(ToDatabaseColumn(Some(l)))) == Some(l)
  {
  }

  /** The round trip is asymmetric: an empty list, and a null one, come back as null. */
  lemma EmptyListComesBackNull<T>()
    ensures ToEntityAttribute<T>(Some(ToDatabaseColumn<T>(Some([])))) == None
    ensures ToEntityAttribute<T>(Some(ToDatabaseColumn<T>(None))) == None
  {
  }

  /** Every non-null array survives the trip to the entity and back, the empty one included
      (it goes to null and null goes back to the empty array). */
  lemma ColumnRoundTrip<T>(a: seq<T>)
    ensures ToDatabaseColumn(ToEntityAttribute(Some(a))) == a
  {
  }
}
