/** The outcomes the backend reports: a value, or the error a serializer or
    the database raises. */
module Results {

  /** Which user-to-object relation a toggle acts on. */
  datatype Relation = FavoriteRel | CartRel | FollowRel

  datatype Error =
    | NoIngredients               // the ingredient list is empty
    | DuplicateIngredient         // the same ingredient id is given twice
    | AmountBelowOne              // an ingredient amount is below 1
    | UnknownIngredient           // a primary-key field names no ingredient
    | UnknownRecipe               // a primary-key field names no recipe
    | AlreadyAdded(rel: Relation) // the (user, object) row already exists
    | SelfFollow                  // a user tries to follow themself
    | IntegrityError              // a unique constraint of the database refused an insert
    | MissingField                // a key the code reads from `validated_data` is absent (KeyError)

  datatype Result<T> = Ok(value: T) | Err(error: Error)

  datatype Option<T> = None | Some(value: T)
}
