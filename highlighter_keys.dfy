/**
 * The highlighting categories: one tag per text-attributes key that the
 * plugin registers.  Colours and fonts belong to the IDE and are not part
 * of the model.
 */
module ApiBlueprintHighlighterKeys {

  datatype Category =
    | Meta            // APIBLUEPRINT_META
    | Group           // APIBLUEPRINT_GROUP
    | Resource        // APIBLUEPRINT_RESOURCE
    | Method          // APIBLUEPRINT_METHOD
    | UriVar          // APIBLUEPRINT_URI_VAR
    | Section         // APIBLUEPRINT_SECTION
    | Mime            // APIBLUEPRINT_MIME
    | Status          // APIBLUEPRINT_STATUS
    | MsonType        // APIBLUEPRINT_MSON_TYPE
    | Property        // APIBLUEPRINT_PROPERTY
    | TypeAnnotation  // APIBLUEPRINT_TYPE_ANNOTATION
    | Number          // APIBLUEPRINT_NUMBER
    | Flag            // APIBLUEPRINT_FLAG
    | ApiName         // APIBLUEPRINT_API_NAME
    | ActionName      // APIBLUEPRINT_ACTION_NAME
    | DataStructures  // APIBLUEPRINT_DATA_STRUCTURES
    | ParameterName   // APIBLUEPRINT_PARAMETER_NAME
    | StringValue     // APIBLUEPRINT_STRING_VALUE
    | Relation        // APIBLUEPRINT_RELATION
}
