/** The exceptions the script can raise from the modelled code. */
module Errors {

  datatype Error =
    | NoHeading        // `tag.h3` is None, so `.text` raises AttributeError
    | TitleNotInTwo    // `title.split(' @ ')` does not give exactly two parts (ValueError on unpacking)
    | NoDateLine       // fewer than four stripped strings (IndexError)
    | BadDate          // `datetime.strptime` rejects the rebuilt date string (ValueError)
    | NoDate           // `date_string` on a session without a date (AttributeError on `None.day`)
    | MissingKey       // the SIMPLEPUSH environment variable is unset (KeyError)
}
