/** Result and absence types shared by every derivation. */
module Tables {

  /** A value that may be missing: pandas' NaN after a left join, SQL's NULL. */
  datatype Option<T> = None | Some(value: T)

  /** The ways a derivation raises in the source instead of returning a table. */
  datatype Failure =
    | EmptyTurnColumn                               // max() of an empty turns column cannot bound range()
    | MissingRowLabel(rowLabel: nat)                // .loc[label] on a row label the frame does not have
    | MissingPlayDrawKey(archId: nat, onPlay: bool) // .at[(arch_id, on_play)] on an absent key
    | MissingStartKey(numMulligans: nat, onPlay: bool) // .loc[(num_mulligans, on_play)] on an absent key
    | LengthMismatch(rows: nat, values: nat)        // a column assigned positionally with the wrong length

  datatype Result<T> = Ok(value: T) | Err(failure: Failure)
}
